# machinepack-sqlserver-adapter, modelled in Dafny

This project models the SQL Server driver of the Waterline adapter. It covers the following parts:

- **Parameter binder.** This is the loop that walks a statement's columns and declares typed `@p<i>` parameters for the `mssql` prepared statement. Its two copies are modelled:
  - the current one in `lib/private/get-params.js`;
  - the older inline copy inside `sendNativeQuery`, which writes stripped xml values back into the caller's array.
- **Rest of `sendNativeQuery`.** This covers the `$N` template rewrite, the connection check and the normalisation of the driver's result.
- **`compileStatement` post-processing.** After the SQL builder runs, it forces collation, splices the sort clause and adds the insert identity.
- **The two classifiers.** `parseNativeQueryError` maps a driver error to a footprint, and `parseNativeQueryResult` maps a raw result by query type.
- **Connection side.** This covers the tiered pool choice of `getConnection`, `destroyManager`, the release-or-close chain of `releaseConnection`, the `validateConnection` predicate, and the config normalisation shared by `createManager` and `createPool`.

Modules, one file each:

| file | module | models |
|---|---|---|
| js_text.dfy | JsText | JavaScript string operations with their edge cases: `includes`, `indexOf`, `substr`, first-match `replace`, `split`, ASCII case mapping, decimal rendering |
| js_value.dfy | JsValue | values as they reach the adapter, truthiness, `.length`, rows as objects, `Number()` |
| param_binder.dfy | ParamBinder | `getParams`: the column loop, the type table, the length check, the null-check skip, type reuse and the trailing pagination loop |
| template_rewrite.dfy | TemplateRewrite | the `$N` rewrite of `sendNativeQuery` |
| connection_check.dfy | ConnectionCheck | `validateConnection` |
| native_query.dfy | NativeQuery | the inline binder over the caller's values array, result normalisation and the whole `sendNativeQuery` |
| compile_statement.dfy | StatementCompiler | `compileStatement` |
| query_error.dfy | QueryErrors | `parseNativeQueryError`, including the lazy constraint-name regex |
| query_result.dfy | QueryResults | `parseNativeQueryResult` |
| pool_manager.dfy | PoolManager | `getConnection`, `destroyManager`, `releaseConnection` |
| connection_config.dfy | ConnectionConfig | the config normalisation and the exits of `createManager` and `createPool` |

**State and I/O.** The model keeps the in-place state of the source as state:

- the values array of the inline binder is an `array`;
- the caller's `meta` object of `compileStatement` and the caller's `options` object are classes;
- the manager's pools are `Pool` objects in a `Manager` class.

Everything the source obtains from the outside becomes a parameter:

- the column catalog;
- the per-column type query;
- the SQL builder's output;
- `connection.escape`;
- the driver run;
- the outcomes of `connect`, `release` and `close`;
- the JSON text of a config and the text of a read error.

Each imperative operation has a method proved against a specification function: for example `ParamBinder.GetParams` against `GetParamsSpec`, `NativeQuery.InlineBind` against `InlineBindSpec`, and `StatementCompiler.ForceCollation` against `CollateUpTo`. The lemmas state what the source promises about those functions.

## Model

| member | source | states |
|---|---|---|
| JsText.IndexOf | lib/private/get-params.js:64-65 | `indexOf` gives the first occurrence, or -1 exactly when there is none |
| JsText.Substr | lib/private/get-params.js:64-65 | `substr` with a negative start counts from the end, and a negative length gives the empty string; otherwise it returns the slice, cut at the end of the string |
| JsText.ExpandReplacement | lib/compile-statement.js:46 | the replacement patterns of a string search: `$$` gives `$`, `$&` the match, `` $` `` the text before it, `$'` the text after it; any other `$` stays |
| JsText.ExpandLiteralPrefix | lib/compile-statement.js:46 | text without `$` in front of a replacement is inserted as it is, ahead of the expansion of the rest |
| JsText.ExpandWithoutDollar | lib/compile-statement.js:46 | a replacement without `$` is inserted literally |
| JsText.ReplaceFirst | lib/compile-statement.js:46 | `replace` with a string pattern changes only the first occurrence, into the expanded replacement, and leaves the text around it as it was; without an occurrence the string is unchanged |
| JsText.ReplaceFirstInsertsAfter | lib/compile-statement.js:46 | replacing the first `p` (without `$`) by `p + x` inserts the expansion of `x` right after that `p` |
| JsText.ReplaceFirstInsertsWords | lib/compile-statement.js:46 | replacing the first `p` by `p + w + x` (no `$` in `p` or `w`) inserts `w` as it is and then the expansion of `x`, literally when `x` has no `$` |
| JsText.CountChar | lib/private/get-params.js:73-75 | the `%` count equals the character's multiplicity and is 0 exactly when the character is absent |
| JsText.LastSegment | lib/private/get-params.js:53-54 | the last `.`-piece is a suffix without `.`, preceded by a `.` when shorter; a name without `.` is kept |
| JsText.FirstSegment | lib/send-native-query.js:152-154 | the first piece is a prefix without the separator, followed by it when shorter |
| JsText.ToLower | lib/private/get-params.js:70 | lower-casing keeps the length and maps each character |
| JsText.ToUpper | lib/compile-statement.js:62-63 | upper-casing keeps the length and maps each character |
| JsText.ToUpperConcat | lib/compile-statement.js:62-64 | upper-casing distributes over concatenation |
| JsText.NatToString | lib/private/get-params.js:56 | `i.toString()` is a non-empty digit run without a leading zero |
| JsText.NatToStringRoundTrip | lib/send-native-query.js:112 | reading a rendered index back gives the index |
| JsText.NatToStringInjective | lib/private/get-params.js:57-58 | different indices give different parameter names |
| JsText.IntToString | lib/private/get-params.js:87 | `'' + x` is the decimal rendering of `x`, with a minus sign exactly when it is negative |
| JsText.IntToStringValue | lib/private/get-params.js:87 | after the sign, the rendered digits read back as the absolute value |
| JsValue.Property | lib/parse-native-query-result.js:45 | reading a missing key gives `undefined`; the first entry is read under its own key |
| JsValue.ToNumber | lib/parse-native-query-result.js:62 | `Number()` keeps numbers, reads a digit string as its decimal value and gives NaN for `undefined` |
| JsValue.ToNumberOfRendered | lib/parse-native-query-result.js:74 | a count rendered in decimal converts back to the count |
| ParamBinder.ParameterPart | lib/private/get-params.js:62-65 | the window between the previous and the current placeholder is never longer than the SQL, including when `indexOf` gives -1 |
| ParamBinder.PercentCount | lib/private/get-params.js:71-77 | a string value's count is the number of `%` characters in it, 0 exactly when it has none; any other value counts 0 |
| ParamBinder.FindColumn | lib/private/get-params.js:70 | the first row whose `COLUMN_NAME` matches case-insensitively, or none exactly when no row matches |
| ParamBinder.LookupType | lib/private/get-params.js:67 | the type remembered for a column, or none exactly when the types map has no entry for it |
| ParamBinder.WireTypeFallback | lib/private/get-params.js:172-174 | a DATA_TYPE outside the table's 24 names gives `VarChar(CHARACTER_MAXIMUM_LENGTH)` |
| ParamBinder.WireTypeIgnoresCase | lib/private/get-params.js:92 | rows that differ only in the case of DATA_TYPE get the same wire type |
| ParamBinder.BufferOverride | lib/private/get-params.js:176-178 | a Buffer is always bound as `VarBinary(MAX)`; any other value keeps the column's type |
| ParamBinder.StripXmlPrologue | lib/private/get-params.js:165-170 | a string with `<?xml` loses everything up to and including the first `?>` (all but its first character without one); other strings are kept; `includes` on a non-string throws |
| ParamBinder.TypeColumn | lib/private/get-params.js:92-178 | a `varchar` row gets a positive maximum, 1000 when it had none, written back into the row, and is typed `VarChar(max + %count)`; no other row changes; only xml changes the value; a Buffer is `VarBinary(MAX)` |
| ParamBinder.TypeAndBindOutcomes | lib/private/get-params.js:70-187 | an unlisted column stops with the unknown-column error, and an over-long value with the too-large error; a null-check-only placeholder binds nothing and keeps `i`; a bound one remembers the column's type and declares `@p<i>` with it |
| ParamBinder.ColumnBodyCases | lib/private/get-params.js:189-201 | a column already typed is bound again with the remembered type under the same null-check rule; a new column the SQL does not mention binds nothing |
| ParamBinder.GetParamsSpec | lib/private/get-params.js:39-222 | the whole binder as a specification: no values gives no parameters, a failed catalog query or a missing `columns` throws, otherwise the column loop then the trailing loop |
| ParamBinder.RunColumns | lib/private/get-params.js:51-203 | the column loop over the columns in order, stopping at the first error |
| ParamBinder.ColumnStep | lib/private/get-params.js:52-202 | one pass: the last `.`-piece of the column, the pagination check, then the rest of the pass |
| ParamBinder.ColumnBody | lib/private/get-params.js:61-202 | the rest of a pass: type a column not seen before when the SQL names it, or bind a remembered one again |
| ParamBinder.TypeAndBind | lib/private/get-params.js:68-188 | the catalog lookup, the length check, the type switch with its write-back, and the binding under the null-check rule |
| ParamBinder.RejectsLength | lib/private/get-params.js:81-91 | the length check: a truthy maximum other than -1, a truthy value, a DATA_TYPE other than `xml`, and a value longer than the maximum plus its `%` count |
| ParamBinder.WireTypeFor | lib/private/get-params.js:92-175 | the switch on the lower-cased DATA_TYPE |
| ParamBinder.WireTypeByName | lib/private/get-params.js:93-174 | the 24 cases of the switch and the VarChar(max) default |
| ParamBinder.ShouldBind | lib/private/get-params.js:190-194 | a placeholder is bound unless its window holds `[col] is null` or `[col] is not null` and none of `[col] =`, `>`, `<`, `!=` |
| ParamBinder.BindPagination | lib/private/get-params.js:56-60 | the pagination check binds `@p<i>` as BigInt when the SQL shows `top (@p<i>)` or `@p<i> rows` |
| ParamBinder.Trailing | lib/private/get-params.js:205-215 | the trailing loop binds each marked index from `columns.length` on as BigInt |
| ParamBinder.GetParams | lib/private/get-params.js:39-222 | the column loop and the trailing loop compute exactly the specified outcome, including the unknown-column, too-large and thrown exits |
| ParamBinder.BindColumn | lib/private/get-params.js:51-203 | one pass: the pagination check, then typing a new column or reusing a remembered type |
| ParamBinder.BindNewColumn | lib/private/get-params.js:68-188 | a new column is looked up, length-checked, typed with the row written back, and bound |
| ParamBinder.BindTrailing | lib/private/get-params.js:205-215 | the `while` loop binds exactly the specified trailing pagination values |
| ParamBinder.RunStopsForGood | lib/private/get-params.js:78-90 | once a column stops the loop, the remaining columns change nothing |
| ParamBinder.DeclareKeeps | lib/private/get-params.js:184-186 | declaring `@p<i>` with the value at `i` keeps the binder's invariant |
| ParamBinder.WriteBackKeeps | lib/private/get-params.js:97-99 | writing the 1000 default into the row keeps the invariant and changes the catalog only as allowed |
| ParamBinder.RememberKeeps | lib/private/get-params.js:183 | pushing a new column on the types map keeps the columns distinct |
| ParamBinder.PaginationKeeps | lib/private/get-params.js:56-60 | the pagination check binds at most `@p<i>`, to the value at `i`, and advances `i` by at most one |
| ParamBinder.TypeAndBindTyped | lib/private/get-params.js:70-188 | a new column that does not stop the loop was found in the catalog, was typed by the switch, and gives exactly the state of writing back, remembering and binding |
| ParamBinder.NewColumnKeeps | lib/private/get-params.js:179-188 | writing back the typed row, remembering the column and binding it keeps the invariant and advances `i` by at most one |
| ParamBinder.TypeAndBindKeeps | lib/private/get-params.js:68-188 | typing a new column keeps the invariant, changes rows only by the write-back and advances `i` by at most one |
| ParamBinder.BodyKeeps | lib/private/get-params.js:61-202 | the rest of a pass keeps the invariant and extends the declarations |
| ParamBinder.StepKeeps | lib/private/get-params.js:51-203 | a whole pass keeps the invariant, extends the declarations and advances `i` by at most two |
| ParamBinder.RunColumnsKeeps | lib/private/get-params.js:51-203 | after the loop, the declarations are `@p0 .. @p(i-1)` in order, each bound to the value at its index (xml aside), with `i` at most twice the column count |
| ParamBinder.TrailingAppends | lib/private/get-params.js:205-215 | the trailing loop only appends declarations and leaves the index, the types map and the rows alone |
| ParamBinder.TrailingDeclaresMarkers | lib/private/get-params.js:207-213 | each appended declaration is a BigInt at a marked index from `columns.length` on, in increasing order |
| ParamBinder.TrailingDeclaresEveryMarker | lib/private/get-params.js:209-212 | every marked trailing index is declared |
| ParamBinder.TrailingBindsMarkers | lib/private/get-params.js:209-212 | every marked trailing index is bound to its value, and no other binding changes |
| ParamBinder.LoopBindingsWellFormed | lib/private/get-params.js:51-203 | the column loop alone yields a well-formed set of declarations and values |
| ParamBinder.TrailingBindingsWellFormed | lib/private/get-params.js:205-215 | the trailing loop keeps the bindings well formed |
| ParamBinder.GetParamsBindings | lib/private/get-params.js:41-217 | on success every declared parameter has a value and every value is declared; a declaration is `@p<n>` at its position or a BigInt pagination marker; a non-xml value is the input at its index |
| TemplateRewrite.RewriteTemplate | lib/send-native-query.js:107-122 | the `$N` rewrite, scanning left to right |
| TemplateRewrite.Substitute | lib/send-native-query.js:110-120 | the callback: the escaped binding `N-1`, or the reference itself when there is none |
| TemplateRewrite.DigitRun | lib/send-native-query.js:110 | the reference is the longest digit run after `$` |
| TemplateRewrite.LeadingDigitPositive | lib/send-native-query.js:110-112 | a reference not starting with 0 denotes at least 1, so its index is never negative |
| TemplateRewrite.RewriteWithoutBindings | lib/send-native-query.js:110-117 | with no bindings every reference is out of range and the SQL is kept |
| TemplateRewrite.RewriteSkipsPlainText | lib/send-native-query.js:110 | text without `$` passes through unchanged |
| TemplateRewrite.RewriteReferenceHead | lib/send-native-query.js:110-120 | a whole reference `$d` becomes the escaped binding `d-1`, or stays as it is when out of range |
| TemplateRewrite.RewriteRenderedReference | lib/send-native-query.js:110-120 | `$n` in front of text without `$` and not starting with a digit becomes binding `n-1` or stays |
| TemplateRewrite.RewriteOneReference | lib/send-native-query.js:110-120 | in `a $n b`, only the reference changes: it becomes the escaped binding `n-1`, or stays when there are fewer than `n` bindings |
| ConnectionCheck.ValidateConnection | lib/private/validate-connection.js:58-68 | a connection that is not an object fails the test without `manager.pool` being read; for an object connection the test throws exactly when `manager.pool` is missing |
| ConnectionCheck.ValidateConnectionMeans | lib/private/validate-connection.js:59-67 | the check holds exactly when the connection is an object and the pool has `query` and `close`; `release` never matters |
| NativeQuery.QueryTable | lib/send-native-query.js:150-154 | the table name loses its alias: the prefix before the first space, or the whole name without one |
| NativeQuery.InlineType | lib/send-native-query.js:183-266 | the inline switch keeps the row; `varchar` is `VarChar(max + %count)` with a NULL maximum as 0; only an xml strip changes the value; a Buffer is `VarBinary(MAX)` |
| NativeQuery.InlineRejectsMaxColumns | lib/send-native-query.js:173-182 | the inline check as written refuses any non-empty string for a MAX (-1) column, which the get-params check accepts |
| NativeQuery.CorrectedCheckOnlyDiffersOnMax | lib/private/get-params.js:81-91 | the check with the -1 exemption refuses only what the inline check refuses, agrees with it on every non-MAX column, and never refuses a MAX column |
| NativeQuery.InlineBinderRefusesMaxColumns | lib/send-native-query.js:173-181 | the inline binder stops with the too-large error, authorised length -1 plus the `%` count, on a non-empty string for a non-xml MAX column that the get-params check lets through |
| NativeQuery.InlineBindSpec | lib/send-native-query.js:136-283 | the inline binder as a specification: no values gives no parameters, the column loop then the trailing loop, with the caller's values afterwards |
| NativeQuery.RunInline | lib/send-native-query.js:139-271 | the inline column loop, stopping at the first error |
| NativeQuery.InlineStep | lib/send-native-query.js:140-270 | one inline pass: the pagination check, then typing and binding when the SQL shows `@p<i>` |
| NativeQuery.InlineTypeAndBind | lib/send-native-query.js:147-270 | the type query, the length check as written, the switch, the xml write-back and the binding |
| NativeQuery.InlineRejectsAsWritten | lib/send-native-query.js:173-174 | the inline length check: a truthy maximum, a truthy value, a DATA_TYPE other than `xml`, and a value longer than the maximum plus its `%` count, with no MAX exemption |
| NativeQuery.InlineBind | lib/send-native-query.js:136-283 | the inline binder over the caller's array computes the specified outcome and leaves the array as specified |
| NativeQuery.InlineColumn | lib/send-native-query.js:139-271 | one pass of the inline loop, with the write-back into the array |
| NativeQuery.InlineNewColumn | lib/send-native-query.js:147-270 | the type query, the length check as written (no MAX exemption), the type switch, the xml write-back into `values[i]` and the binding |
| NativeQuery.RunInlineStopsForGood | lib/send-native-query.js:174-181 | once a column stops the inline loop, the rest change nothing |
| NativeQuery.InlineDeclareKeeps | lib/send-native-query.js:267-269 | binding `@p<i>` to what the array holds at `i` keeps the inline invariant |
| NativeQuery.InlinePaginationKeeps | lib/send-native-query.js:142-146 | the pagination check keeps the inline invariant |
| NativeQuery.InlineTypeAndBindKeeps | lib/send-native-query.js:147-270 | a typed pass writes only an xml strip into the array and keeps the invariant |
| NativeQuery.InlineStepKeeps | lib/send-native-query.js:139-271 | a whole inline pass keeps the invariant |
| NativeQuery.InlineStepHaltKeepsValues | lib/send-native-query.js:174-181 | a pass that stops leaves the array as it was |
| NativeQuery.RunInlineKeeps | lib/send-native-query.js:139-271 | the inline loop binds `@p0 .. @p(i-1)` to the array's current values and changes the array only by xml strips |
| NativeQuery.InlineWriteBack | lib/send-native-query.js:253-257 | whatever the outcome, the caller's values change only where an xml value lost its prologue; each bound parameter holds the array's value at its index |
| NativeQuery.NormalizeResult | lib/send-native-query.js:313-325 | with a manager and a `recordset`: `{rows, fields}`; otherwise one recordset, or two with the second empty, collapse to the first; other lists stay; no recordsets give `{}` |
| NativeQuery.EffectivePool | lib/send-native-query.js:78-82 | the pool checked is the given manager's, or the connection's `parentPool` without a manager; reading `parentPool` throws exactly when there is no manager and the connection is `null` or `undefined` |
| NativeQuery.SendNativeQuery | lib/send-native-query.js:76-330 | without a manager, a `null` or `undefined` connection throws before validation; a bad connection exits badConnection before anything is sent; the `$N` path sends the rewritten SQL with no parameters and leaves the values alone; the `?` path sends the inline binder's parameters or exits with its error; a sent query ends in its normalised result or queryFailed |
| StatementCompiler.BuildFailure | lib/compile-statement.js:31-38 | a builder error without a code, or with code `error`, becomes `malformed`; any other is rethrown with its code |
| StatementCompiler.WantsCollation | lib/compile-statement.js:45 | a binding wants collation when it starts with `%`, or ends with `%` and the SQL shows its placeholder |
| StatementCompiler.CollateStep | lib/compile-statement.js:44-47 | a null or undefined binding throws; a binding that is not a wildcard leaves the SQL alone |
| StatementCompiler.CollateInsertsAfterPlaceholder | lib/compile-statement.js:45-46 | a wildcard binding gets ` collate ` and the expanded collation right after the first `@p<index>`, literally when the collation has no `$`, and nothing else changes |
| StatementCompiler.CollationPatternRepeatsPlaceholder | lib/compile-statement.js:46 | a collation `$&` inserts the placeholder itself instead of a collation name |
| StatementCompiler.CollateUpTo | lib/compile-statement.js:43-49 | the collation loop over the first `n` bindings, as a specification |
| StatementCompiler.ForceCollation | lib/compile-statement.js:43-49 | the `entries()` loop computes the specified collation of all bindings |
| StatementCompiler.CollateStopsForGood | lib/compile-statement.js:44-48 | once the loop throws, later bindings do not matter |
| StatementCompiler.CollateFailsOnNullish | lib/compile-statement.js:44-45 | the loop throws exactly when some binding is null or undefined |
| StatementCompiler.CollateWithoutWildcards | lib/compile-statement.js:44-48 | bindings without a `%` at either end leave the SQL unchanged |
| StatementCompiler.SortedSql | lib/compile-statement.js:50-59 | an `ORDER BY` sort query is spliced, space-joined, before the first `offset`, or appended after a space; otherwise the SQL is kept |
| StatementCompiler.SortLandsBeforeOffset | lib/compile-statement.js:51-54 | after the splice, the first `offset` is the SQL's own, moved right by the sort query and two spaces, and the text before the sort query is unchanged |
| StatementCompiler.NoOffsetInsideSplice | lib/compile-statement.js:51-54 | no `offset` starts inside the spliced text before the SQL's own |
| StatementCompiler.WithInsertId | lib/compile-statement.js:62-65 | the SQL with the identity suffix when it is a plain insert |
| StatementCompiler.InsertIdOnlyForPlainInserts | lib/compile-statement.js:62-65 | the SQL changes exactly for an insert whose upper-cased SQL has neither `SELECT` nor `OUTPUT`, and only by the identity suffix |
| StatementCompiler.InsertIdIdempotent | lib/compile-statement.js:62-65 | adding the identity suffix twice gives the same SQL as adding it once |
| StatementCompiler.SuffixSelects | lib/compile-statement.js:64 | the identity suffix itself contains `SELECT` |
| StatementCompiler.CompileSpec | lib/compile-statement.js:29-70 | compileStatement as a specification: the builder's failure, the collation loop, the sort splice and the identity suffix |
| StatementCompiler.CompileWithoutMeta | lib/compile-statement.js:29-70 | without meta, a non-insert statement is sent exactly as built, with its bindings or none |
| StatementCompiler.CompileExits | lib/compile-statement.js:31-70 | the result is an error exactly when the builder failed, or when collation is forced and the bindings are missing or hold null/undefined; the values to escape are the builder's bindings or `[]` |
| StatementCompiler.CompileStatement | lib/compile-statement.js:29-71 | the step-by-step rewrite computes the specified exit; the flag is set on the caller's meta, or on a fresh `{}` when none was given; a failure leaves the meta alone |
| StatementCompiler.Meta.constructor | lib/compile-statement.js:41 | a fresh meta has no collation, no sort query and no flag |
| QueryErrors.UniqueName | lib/parse-native-query-error.js:117 | the constraint name the regex captures from a message |
| QueryErrors.QuoteFrom | lib/parse-native-query-error.js:117 | the lazy `(.*?)'` ends at the first quote that comes before any line terminator |
| QueryErrors.CaptureFrom | lib/parse-native-query-error.js:117 | a match captures a name without quotes or line breaks, and head, name and quote occur together in the message; no head, no match |
| QueryErrors.CapturedName | lib/parse-native-query-error.js:117 | a capture closed by a quote is such a name |
| QueryErrors.QuoteFromStopsAtQuote | lib/parse-native-query-error.js:117 | the lazy capture stops exactly at the first closing quote |
| QueryErrors.CaptureAtStart | lib/parse-native-query-error.js:117 | a head at the start of the message whose capture closes is the first match |
| QueryErrors.CaptureOfMessage | lib/parse-native-query-error.js:117-119 | `head + name + "'" + rest` captures `name` |
| QueryErrors.UniqueNameOfMessage | lib/parse-native-query-error.js:116-119 | a server message starting with the phrase and a quoted name gives that name |
| QueryErrors.UniqueNameOfServerMessage | test/queryable/parse-native-query-error.test.js:78-83 | the duplicate-key message for `AK_Name` gives `AK_Name` |
| QueryErrors.UniqueKeys | lib/parse-native-query-error.js:116-121 | `keys` holds at most the one captured name, and only for a string message that contains it quoted after the phrase |
| QueryErrors.ParseErrorAsWritten | lib/parse-native-query-error.js:70-177 | the classifier as written, whose prepare-failure block throws |
| QueryErrors.ParseError | lib/parse-native-query-error.js:70-177 | the classifier with the prepare-failure block returning catchall with the preceding errors |
| QueryErrors.ClassifyRest | lib/parse-native-query-error.js:109-177 | the notUnique and queryFailed blocks and the final report |
| QueryErrors.PrepareFailureThrowsAsWritten | lib/parse-native-query-error.js:84-89 | as written, a prepare failure throws instead of returning; the corrected classifier returns catchall with the preceding errors |
| QueryErrors.CorrectionOnlyTouchesPrepareFailures | lib/parse-native-query-error.js:84-89 | the correction changes nothing but prepare failures |
| QueryErrors.ParseErrorCases | lib/parse-native-query-error.js:70-177 | without an object or a code: catchall with no message; a unique violation: notUnique with the captured keys; `queryFailed`: the inner error's preceding errors and message, throwing without `raw.error`; any other coded error: catchall with its message |
| QueryErrors.NotUniqueNamesConstraint | lib/parse-native-query-error.js:109-122 | an EREQUEST error whose stack has the phrase and whose message names a constraint gives notUnique on exactly that name |
| QueryResults.ParseResult | lib/parse-native-query-result.js:39-77 | the switch on the query type |
| QueryResults.Aggregate | lib/parse-native-query-result.js:58-75 | `Number()` of the first column of the first row |
| QueryResults.ParseResultCases | lib/parse-native-query-result.js:39-77 | select gives the rows, update the rows themselves, delete `affectedRows`, insert the first row's `insertId`; only insert and the aggregates throw, exactly on missing or empty rows; unknown types give no result |
| QueryResults.DestroyGivesNoResult | lib/parse-native-query-result.js:76 | `destroy` falls to the default and gives no result |
| QueryResults.AggregateReadsFirstColumn | lib/parse-native-query-result.js:58-75 | avg/sum/count read the first column of the first row as a number, give NaN for a row without columns, and read a decimal count back exactly |
| QueryResults.AsNativeResult | lib/send-native-query.js:313-330 | only `{rows, fields}` carries `rows`, and no result carries `affectedRows` |
| QueryResults.ParseAfterSendNativeQuery | lib/parse-native-query-result.js:41-56 | a delete parsed from sendNativeQuery's result reports `undefined`; a select gives rows only when a manager was passed |
| PoolManager.Pool.Connect | lib/get-connection.js:34 | a resolved `connect()` leaves the pool connected; a rejected one leaves it as it was |
| PoolManager.Pool.Close | lib/destroy-manager.js:26 | `close()` disconnects the pool |
| PoolManager.FindFirst | lib/get-connection.js:30 | `find` gives the first pool passing the test, or none exactly when none passes |
| PoolManager.Choose | lib/get-connection.js:30-42 | the four tiers of the pool choice |
| PoolManager.ChooseTiers | lib/get-connection.js:30-42 | tier (a) is the first idle pool; (b) the first disconnected pool when none is idle; (c) the first light pool when all are connected and none idle; (d) the first pool when all are connected and busy |
| PoolManager.ChooseFailsOnlyWithoutPools | lib/get-connection.js:30-50 | no tier picks a pool exactly when there are no pools |
| PoolManager.ChooseWhenAllConnected | lib/get-connection.js:37-42 | with every pool connected, the idle, light or busy tier picks one |
| PoolManager.Manager.GetConnection | lib/get-connection.js:29-51 | the pool picked by tier is returned; a disconnected pick is connected first, and a rejection is the exit; only that pool changes; with every pool connected a pool is always acquired and all stay connected |
| PoolManager.Manager.DestroyManager | lib/destroy-manager.js:24-31 | every pool is closed in list order, and the list is kept |
| PoolManager.ReleaseConnection | lib/release-connection.js:70-111 | a connection that is not an object, or a pool without `query` or `close`, exits badConnection without calling `release`; a missing pool behind an object connection throws; otherwise `release` is called once, and on failure `close` once; success, forced close or an error naming both stacks; a pool without `release` always ends in `close` |
| PoolManager.ReleaseAttempt | lib/release-connection.js:89 | the call `manager.pool.release(connection)` gives the driver's outcome when the pool has `release`, and otherwise throws a "not a function" TypeError |
| PoolManager.ReleaseOrClose | lib/release-connection.js:81-110 | release, then close on failure; the error exit's message holds both stacks |
| PoolManager.MessageHoldsBothStacks | lib/release-connection.js:101-102 | both stacks can be read back from the error message |
| ConnectionConfig.Options.ForceArithAbort | lib/create-manager.js:240 | `enableArithAbort` becomes true and every other option stays |
| ConnectionConfig.Settings | lib/create-manager.js:222-252 | the server is always set; user and password are copied exactly when truthy; the database exactly when it is a string |
| ConnectionConfig.SettingsDefaults | lib/create-manager.js:222-234 | a falsy port gives 1433 and a falsy host gives `localhost`; given values are kept |
| ConnectionConfig.SettingsPort | lib/create-manager.js:224-228 | a decimal port, as a number or as text, is the port; the number 0 falls back to 1433 |
| ConnectionConfig.NormalizeConfig | lib/create-manager.js:216-252 | an unreadable config fails; otherwise the settings are built and the caller's own `options`, or a fresh `{}`, gets `enableArithAbort` |
| ConnectionConfig.MalformedMessageHoldsBoth | lib/create-manager.js:253-255 | the malformed message holds the config's JSON and the original error |
| ConnectionConfig.CreateManager | lib/create-manager.js:216-287 | malformed with the message, or a manager holding the pool config and the original connection config; the pool config uses the caller's own `options`, with `enableArithAbort` set and every other option as it was, or a fresh `{enableArithAbort: true}`; `meta` passes through |
| ConnectionConfig.CreatePool | lib/create-pool.js:53-118 | malformed with the config as meta, failed on a truthy connect error, otherwise the pool with the normalised settings and the caller's own `options`, with `enableArithAbort` set and every other option as it was, or a fresh `{enableArithAbort: true}` |
| ConnectionConfig.OnPoolError | lib/create-manager.js:270-277 | the notifier is called only when given, with the error when it is truthy and the default error otherwise |
| ConnectionConfig.NotifiedErrorIsTruthy | lib/create-manager.js:273-275 | the notifier never receives a falsy error |

## Left out

- All driver I/O is left out: the prepared statement's `prepare`, `execute` and `unprepare`, the construction of a `ConnectionPool`, and the real `connect`, `release` and `close`. Their outcomes are inputs (`DriverRun`, `CallOutcome`, the `connect` result).
- The INFORMATION_SCHEMA lookups of lib/private/get-columns-properties.js are left out. The column rows reach the binders as inputs: a catalog list, and a per-column lookup for the inline binder.
- Async exit sequencing is left out. After a failed `prepare` or `execute`, `sendNativeQuery` goes on after calling `queryFailed`. `createPool` calls `failed` and then `success`. The model ends at the first exit.
- `connection.escape` is left out. It is a parameter.
- `Buffer` internals are left out. A Buffer is its bytes, one char per byte.
- JS numbers are integers in the model (`JsValue.Value.Num` holds an `int`). A fractional value, such as an `avg` of 2.5 or a float binding, cannot be expressed, so QueryResults.Aggregate and QueryResults.AggregateReadsFirstColumn cover integer columns only. Floating point is not modelled.
- JsValue.ToNumber: `Number()` is exact on integers, on plain decimal digit strings and on `undefined`. Any other string is left `Unparsed`, because its value needs the full numeric-literal grammar and floating point.
- JsText.ToLower: only ASCII letters are mapped. JsText.ToUpper is the same. Unicode case mapping is not modelled.
- The pool's `error` event wiring is left out. Only the argument the notifier receives is modelled (`OnPoolError`).
- The JSON rendering of a config and the text of a config read error are left out. They are inputs to the malformed message.
- `meta` is left out of parseNativeQueryError, parseNativeQueryResult, getConnection and destroyManager. In those operations it passes through untouched.
- The debug logging of sendNativeQuery is left out.
- A truthy non-object `options` value is left out: its `enableArithAbort` assignment is silently lost. The model's `options` is an object or absent.
- A primitive `connectionConfig`, such as a string, is read as a config whose fields are all `undefined`. It is not modelled separately.
- createManager builds `{pool, connectionConfig}`, while getConnection and destroyManager read `manager.pools`. Each operation is modelled on the shape it reads.
- PoolManager.ReleaseAttempt: the TypeError's stack is modelled by its first line only. The stack frames after that line depend on the runtime.
- PoolManager.Manager.GetConnection: a disconnected pool is taken to be connected when `await pool.connect()` resolves, since mssql resolves it with the pool itself. The source assigns whatever `connect()` resolves to, and a falsy value would fall through to tiers (c) and (d), possibly ending in "Cannot acquire a pool". That path is not modelled.
- A destroyed manager is not rejected: its closed pools would be reconnected by tier (b). Nothing in the model asserts otherwise.
- The column catalog is fetched anew on every `getParams` call. The model does not assert any caching.
- ParamBinder.ParameterPart: `indexOf('@p' + k)` also matches inside `@p10` and longer names. This is modelled exactly as written, with no claim about which placeholder the window then covers.

## Findings

| source | as written | input that shows it | evidently intended | confidence | as-written member | corrected member |
|---|---|---|---|---|---|---|
| lib/parse-native-query-error.js:84-89 | the prepare-failure block sets `footprint.key = []`, then calls `footprint.keys.push(...)`, which throws a TypeError because `keys` is undefined | an error with `code: 'EREQUEST'` whose stack contains "Statement(s) could not be prepared" | a catchall footprint whose `keys` hold `precedingErrors`, with the error's message | not executed; high | QueryErrors.ParseErrorAsWritten, shown by QueryErrors.PrepareFailureThrowsAsWritten | QueryErrors.ParseError, with QueryErrors.ParseErrorCases and QueryErrors.CorrectionOnlyTouchesPrepareFailures |
| lib/send-native-query.js:173-174 | the inline length check refuses a value longer than `CHARACTER_MAXIMUM_LENGTH + %count` even when the maximum is -1 (MAX) | a non-empty string bound to an `nvarchar(max)` column (maximum -1): queryFailed with "the length authorized is -1" | no length limit for MAX columns, as in lib/private/get-params.js:82 | not executed; medium | NativeQuery.InlineRejectsAsWritten, used by the inline binder (NativeQuery.InlineTypeAndBind), shown by NativeQuery.InlineRejectsMaxColumns and NativeQuery.InlineBinderRefusesMaxColumns | ParamBinder.RejectsLength, the check of the get-params binder (ParamBinder.TypeAndBind), with NativeQuery.CorrectedCheckOnlyDiffersOnMax |
