# Octopus interpreter core, modelled in Dafny

Octopus answers an HTTP request by interpreting a small *program*. A program declares typed
variables, a list of modules and a list of statements, and each statement belongs to one module.
This project models the sequential interpreter in `main/octopus-nodejs-dev.js`, in four parts:

* **Type registry** (`types.dfy`, with `numbers.dfy` and `strings.dfy`). Descriptors such as
  `boolean`, `int` or `string(N)` are parsed into the datatype `Type`. The per-type conversions
  `stringToValue` and `valueToString` are pure functions that return a `Result`. The exception
  classes become the `Error` datatype in `errors.dfy`.
* **Execution context** (`execution.dfy`). The class `ExecutionContext` holds a write-once map
  from variable names to (type, value) pairs, plus the response. It is seeded from the program's
  declared variables. The response (`Response`) records the calls made on it: headers set, status
  written, body ended.
* **Modules.**
  * The HTTP module's `plain` statement (`http.dfy`) renders a body and writes the response.
  * The MySQL module context (`mysql_spec.dfy`, `mysql.dfy`) is a class. It tracks whether a
    connection was acquired and released, whether a transaction is open, and the SQL statements
    sent. The database is an oracle `Pool` (`driver.dfy`): a function from the SQL log so far and
    the next SQL text to a result set or a driver error. The class carries `aggregate`, `assign`,
    `check`, `update`, `commit`, `rollback`, `startTransaction` and `finalize`.
  * Every state-changing method is proved against a pure `*Effect` function. The properties are
    proved as lemmas about those functions.
* **Engine** (`engine_spec.dfy`, `engine.dfy`). The class `OctopusEngine` has three steps:
  * `initialize` registers the modules and rejects duplicate names.
  * `execute` creates the module contexts, seeds the variables, runs the statements strictly in
    order (stopping at the first failure), answers a failure (BusinessLogic → its status and a
    JSON body, anything else → 500), and finalises every module context, isolating each failure.
  * `finalize` ends every module.

  `Serve` is the static entry point, which always finalises. Each step is proved against a pure
  specification (`Instantiate`, `RunSpec`, `ExecuteSpec`, `EndFailures`, `ServeSpec`). The
  run-level properties are proved for any statement stepper (`RunWith`).

Statement and program shapes are in `program.dfy`; JSON values for response bodies are in
`json.dfy`. Wherever the code as written differs from what it evidently intends, the model
keeps both versions: one member models the code as written, and the rest of the model uses the
corrected one (see "## Findings").

## Model

| member | source | states |
|---|---|---|
| Types.FromDescriptor | main/octopus-nodejs-dev.js:40-69 | every failure of descriptor parsing is an IllegalArgument error; a bounded string type comes only from a `string(` descriptor |
| Types.StringToValue | main/octopus-nodejs-dev.js:70-139 | a parsed value always has the requested type; UUID fails with a plain Error, every other type fails with IllegalArgument |
| Types.BareDescriptors | main/octopus-nodejs-dev.js:41-54 | the six bare names yield the six fixed types, with `string` meaning the unbounded string |
| Types.FromDescriptorStringN | main/octopus-nodejs-dev.js:55-66 | `string(N)` yields the unbounded string for N = -1, `string(N)` for N ≥ 0, and IllegalArgument for N ≤ -2 |
| Types.FromDescriptorMissingParenthesis | main/octopus-nodejs-dev.js:55-58 | a `string(` descriptor without a closing parenthesis fails with IllegalArgument |
| Types.FromDescriptorNonNumeric | main/octopus-nodejs-dev.js:55-61 | a `string(` descriptor whose length text is not a number fails with IllegalArgument |
| Types.FromDescriptorRejectsOthers | main/octopus-nodejs-dev.js:68 | any other descriptor fails with IllegalArgument("invalid descriptor.") |
| Types.StringAcceptsIff | main/octopus-nodejs-dev.js:74-78 | `string(N)` accepts a text iff its JavaScript length (UTF-16 code units) is at most N (always, for the unbounded string), returns the text unchanged, and otherwise fails with IllegalArgument |
| Types.AstralCountsTwice | main/octopus-nodejs-dev.js:75-76 | a character above U+FFFF counts as two: it overflows `string(1)` with the message "actual 2" and fits `string(2)` |
| Strings.Utf16Bmp | main/octopus-nodejs-dev.js:75 | for text without characters above U+FFFF, the JavaScript length and indices are the character length and indices |
| Types.BooleanAcceptsExactly | main/octopus-nodejs-dev.js:83-92 | the boolean type accepts exactly "true" and "false", and serialises what it accepted back to the same text |
| Types.BooleanRoundTrip | main/octopus-nodejs-dev.js:83-93 | parsing the serialisation of any boolean gives it back |
| Types.IntRoundTrip | main/octopus-nodejs-dev.js:119-128 | parsing the serialisation of any safe integer gives it back |
| Types.LiteralRoundTrip | main/octopus-nodejs-dev.js:81-134 | for boolean, int and string types, parsing a value's serialisation gives the value back |
| Types.LiteralRoundTripBack | main/octopus-nodejs-dev.js:83-93 | for boolean and string types, serialising an accepted text gives the text back |
| Types.DateGate | main/octopus-nodejs-dev.js:97-103 | a date is accepted iff it has 10 UTF-16 code units with '-' at units 4 and 7; for text within U+FFFF, iff it has length 10 and '-' at indices 4 and 7 |
| Types.DateTimeGate | main/octopus-nodejs-dev.js:109-115 | a datetime is accepted iff it has 19 UTF-16 code units with '-', '-', 'T', ':', ':' at units 4, 7, 10, 13, 16; for text within U+FFFF, the same with length and indices |
| Types.UuidNeverParses | main/octopus-nodejs-dev.js:137 | the UUID type rejects every text with Error("not implemented yet.") |
| Types.BoundedStringHasNoSerializerAsWritten | main/octopus-nodejs-dev.js:70-80 | as written, a `string(5)` type has no serialiser, while the unbounded string serialises "abc" as "abc" |
| Types.StringRoundTrip | main/octopus-nodejs-dev.js:129-134 | corrected: a bounded or unbounded string value serialises to its text, which both string types parse back to the value |
| Numbers.NumberOf | main/octopus-nodejs-dev.js:59 | a text reads as a number iff it is empty (0) or an optional sign followed by decimal digits; the value is negative only after a '-' |
| Numbers.ParseInteger | main/octopus-nodejs-dev.js:121 | defined exactly on signed digit texts; the magnitude is the value of the digits after the sign, negated after '-' |
| Numbers.NumberOfIntToString | main/octopus-nodejs-dev.js:59 | reading the decimal text of any integer gives the integer back |
| Numbers.IntToStringOfNumber | main/octopus-nodejs-dev.js:121-124 | a text in the form `toString` writes (no '+', no leading zero, no "-0") reads as the integer whose text it is |
| Strings.IndexOf | main/octopus-nodejs-dev.js:56 | the result is the first position at or after `from` holding the character, or -1 iff there is none |
| Execution.Lookup | main/octopus-nodejs-dev.js:413-418 | lookup succeeds iff the name is bound, returns its binding, and otherwise fails with InvalidState |
| Execution.WriteOnce | main/octopus-nodejs-dev.js:407-412 | binding fails with InvalidState iff the name is bound; a success adds exactly that name and keeps every other binding |
| Execution.SeedStep | main/octopus-nodejs-dev.js:423-427 | seeding binds the first declared variable to its converted value, then seeds the rest |
| Execution.SeedBindsAll | main/octopus-nodejs-dev.js:423-427 | distinct, convertible declarations are all seeded; the result binds exactly the old names plus the declared ones, each to its declared value |
| Execution.ExecutionContext.constructor | main/octopus-nodejs-dev.js:401-419 | a new context has no variables and the given response |
| Execution.ExecutionContext.AssignVariable | main/octopus-nodejs-dev.js:407-412 | fails with InvalidState("reassignment…") iff the name is bound, leaving the map unchanged; otherwise binds exactly that name |
| Execution.ExecutionContext.GetVariable | main/octopus-nodejs-dev.js:413-418 | returns the binding iff the name is bound, else InvalidState("cannot resolve variable…") |
| HttpModule.HeaderEvents | main/octopus-nodejs-dev.js:157-159 | one header-set call per header, in order |
| HttpModule.RenderLiteral | main/octopus-nodejs-dev.js:147-156 | a body without variable references renders as the concatenation of its fragments |
| HttpModule.RenderFailsIff | main/octopus-nodejs-dev.js:149-153 | rendering succeeds iff every `:name` fragment names a bound variable; failures are InvalidState |
| HttpModule.BoundedStringInPlainBodyAsWritten | main/octopus-nodejs-dev.js:150-152 | as written, a `string(5)` variable in a plain body makes rendering fail; corrected, it renders as its text |
| HttpModule.ExecutePlain | main/octopus-nodejs-dev.js:146-162 | on success the response gets the headers in order, then the status, then the rendered body; a rendering failure writes nothing |
| HttpModule.ExecuteStatement | main/octopus-nodejs-dev.js:165-172 | `plain` is executed as above; every other kind fails with Error("invalid mysql statement kind …") and writes nothing |
| MysqlSpec.VariableToMysql | main/octopus-nodejs-dev.js:208-225 | booleans become true/false, integers their decimal text, strings are escaped, UUIDs wrapped in UUID_TO_BIN, dates in STR_TO_DATE of the escaped ISO text |
| MysqlSpec.AssembleConcat | main/octopus-nodejs-dev.js:188-195 | corrected: assembling a concatenated body is assembling each part, in order, and joining the texts |
| MysqlSpec.AssembleLiteral | main/octopus-nodejs-dev.js:188-195 | corrected: a body without variable references assembles to what the code as written produces |
| MysqlSpec.VariableNotSubstitutedAsWritten | main/octopus-nodejs-dev.js:190-194 | as written, `:id` is sent literally; corrected, it is replaced by the variable's SQL text |
| MysqlSpec.RunQuery | main/octopus-nodejs-dev.js:188-206 | a query never touches the transaction flag, acquires a connection only when none is held and the pool gives one, and on success logs exactly the assembled SQL |
| MysqlSpec.LazyAcquisition | main/octopus-nodejs-dev.js:196-205 | a connection is acquired at most once: a pool error on first use leaves the state unchanged; otherwise (connection held, or acquired now) the connection is marked acquired, the SQL is logged and the query's rows or driver error are returned |
| MysqlSpec.AssembleKeyword | main/octopus-nodejs-dev.js:312 | a keyword body such as `COMMIT` assembles to itself |
| MysqlSpec.StartTransactionRow | main/octopus-nodejs-dev.js:321-326 | inside a transaction it fails with InvalidState and changes nothing; otherwise a successful START TRANSACTION opens the transaction |
| MysqlSpec.CloseRow | main/octopus-nodejs-dev.js:309-320 | outside a transaction COMMIT/ROLLBACK fail with InvalidState and change nothing; inside, success sends the statement and closes the transaction |
| MysqlSpec.UpdateRow | main/octopus-nodejs-dev.js:284-296 | outside a transaction it fails with InvalidState; on success it binds affected/changed row counts as int variables only under the names given, and changes no other variable |
| MysqlSpec.CheckBehaviour | main/octopus-nodejs-dev.js:273-282 | corrected guard: refused outside a required transaction; no rows changes nothing; rows roll back, close the transaction and fail with BusinessLogic(409, first cell) |
| MysqlSpec.CheckGuardInvertedAsWritten | main/octopus-nodejs-dev.js:274 | as written, an absent flag never refuses and an explicit `false` refuses outside a transaction: the opposite of the corrected guard |
| MysqlSpec.AggregateRowCounts | main/octopus-nodejs-dev.js:227-249 | 0 rows answers 404 "Empty."; more than 1 row fails with InvalidState; 1 row answers 200 with a JSON body; variables never change |
| MysqlSpec.SingleRowObject | main/octopus-nodejs-dev.js:235-245 | the 200 body maps each clause to its column of the row and each subquery name to the array that subquery produced, in that key order |
| MysqlSpec.RowObjectDistinct | main/octopus-nodejs-dev.js:238-241 | a row object has exactly the clause names as keys, each mapped to its cell |
| MysqlSpec.RowObjectsInOrder | main/octopus-nodejs-dev.js:256-261 | one object per row, in row order |
| MysqlSpec.SubqueriesAddArrays | main/octopus-nodejs-dev.js:242-243 | the subqueries add their names as keys after the existing ones, each to an array, and keep every other key |
| MysqlSpec.SubqueryArrays | main/octopus-nodejs-dev.js:242-243 | the array under each subquery's name is the one that subquery produced when run after the subqueries before it |
| MysqlSpec.SubqueryShape | main/octopus-nodejs-dev.js:251-263 | a subquery yields an array of one object per result row, in order; a row with fewer columns than clauses is an error |
| MysqlSpec.AssignBindsFirstCell | main/octopus-nodejs-dev.js:265-271 | 0 rows fails with InvalidState("empty resultset."); success binds the name to the first cell converted through the declared type; a failure binds nothing |
| MysqlSpec.FinalizeGuard | main/octopus-nodejs-dev.js:333-340 | with an open transaction it sends ROLLBACK and fails with InvalidState without releasing; otherwise it succeeds, releasing the connection iff one was acquired |
| MysqlSpec.StatementPreservesInv | main/octopus-nodejs-dev.js:298-332 | every statement keeps the context invariant (a connection is acquired iff SQL was sent on it; a transaction or a release only on an acquired connection), never changes `released`, and only extends the SQL log |
| MysqlSpec.AggregatePreservesInv | main/octopus-nodejs-dev.js:227-249 | aggregate keeps the invariant and the transaction flag |
| MysqlSpec.SubqueriesPreserveInv | main/octopus-nodejs-dev.js:242-243 | running the subqueries keeps the invariant and the transaction flag |
| MysqlModule.ProjectRow | main/octopus-nodejs-dev.js:256-260 | the loop builds the row object of the projection specification |
| MysqlModule.MysqlContext.constructor | main/octopus-nodejs-dev.js:298-299 | a new context holds no connection and no transaction |
| MysqlModule.MysqlContext.Execute | main/octopus-nodejs-dev.js:188-206 | result and new state are those of `RunQuery` |
| MysqlModule.MysqlContext.ExecuteAggregateSubquery | main/octopus-nodejs-dev.js:251-263 | result and new state are those of the subquery specification |
| MysqlModule.MysqlContext.ExecuteAggregate | main/octopus-nodejs-dev.js:227-249 | result, new state and response calls are those of the aggregate specification |
| MysqlModule.MysqlContext.RespondSingleRow | main/octopus-nodejs-dev.js:235-245 | the single-row answer follows its specification |
| MysqlModule.MysqlContext.ExecuteAssign | main/octopus-nodejs-dev.js:265-271 | result, new state and variables are those of the assign specification |
| MysqlModule.MysqlContext.ExecuteCheck | main/octopus-nodejs-dev.js:273-282 | result and new state are those of the check specification, with the corrected guard |
| MysqlModule.MysqlContext.ExecuteUpdate | main/octopus-nodejs-dev.js:284-296 | result, new state and variables are those of the update specification |
| MysqlModule.MysqlContext.ExecuteStatement | main/octopus-nodejs-dev.js:301-332 | each kind follows the transaction table; the invariant is kept |
| MysqlModule.MysqlContext.Finalize | main/octopus-nodejs-dev.js:333-340 | result and new state are those of the finalize specification; the invariant is kept |
| EngineSpec.ModuleOf | main/octopus-nodejs-dev.js:392-399 | only the class name "mysql" instantiates a module; any other name fails with the ReferenceError the code raises |
| EngineSpec.InstantiateKeepsPrefix | main/octopus-nodejs-dev.js:379-390 | initialisation only appends modules, and the names registered stay distinct |
| EngineSpec.InstantiateOkIff | main/octopus-nodejs-dev.js:379-390 | initialisation succeeds iff all module names, `http` included, are distinct and every class is mysql |
| EngineSpec.InstantiateRegisters | main/octopus-nodejs-dev.js:383-388 | a successful initialisation registers one MySQL module per descriptor, in order |
| EngineSpec.InitialSlots | main/octopus-nodejs-dev.js:420-421 | one fresh context per module, under the module's name |
| EngineSpec.IndexOfName | main/octopus-nodejs-dev.js:435-437 | statement dispatch finds the first context with the statement's module name, or none iff the name is absent |
| Errors.ErrorText | main/octopus-nodejs-dev.js:449 | `e.toString()`: the error's name alone when the message is empty, and otherwise the name, ": " and the message |
| EngineSpec.Respond | main/octopus-nodejs-dev.js:440-450 | a BusinessLogic error is answered with its status and a JSON {status, message}; any other error with 500 and its text |
| EngineSpec.RunSpecSteps | main/octopus-nodejs-dev.js:434-439 | the statement loop is the generic in-order run over the statement step |
| EngineSpec.RunPrefix | main/octopus-nodejs-dev.js:434-439 | after a successful prefix, the run continues from the prefix's state with the prefix's response calls in front |
| EngineSpec.StopsAtFirstFailure | main/octopus-nodejs-dev.js:434-440 | when statement k is the first to fail, the run fails with its error and no later statement has any effect |
| EngineSpec.RunExtends | main/octopus-nodejs-dev.js:434-439 | a successful statement extends the run by its effect |
| EngineSpec.OkRunsAll | main/octopus-nodejs-dev.js:434-439 | a successful run executed every statement successfully, in order |
| EngineSpec.StepPreservesInv | main/octopus-nodejs-dev.js:435-438 | a statement keeps the contexts' names, kinds and invariants |
| EngineSpec.RunPreservesInv | main/octopus-nodejs-dev.js:434-439 | the whole statement loop keeps the contexts' names, kinds and invariants |
| EngineSpec.FinalizeSlots | main/octopus-nodejs-dev.js:451-456 | every context is finalised in place, whatever any other context's finalisation did |
| EngineSpec.FinalizeSettles | main/octopus-nodejs-dev.js:451-456 | after finalisation every MySQL context either still had an open transaction (rolled back) or released exactly the connection it acquired |
| EngineSpec.ConcludeSettles | main/octopus-nodejs-dev.js:440-456 | concluding any run succeeds and settles every context |
| EngineSpec.ExecuteReleasesConnections | main/octopus-nodejs-dev.js:431-457 | corrected: once the variables are seeded, `execute` succeeds and every context is finalised and settled, whatever the statements did |
| EngineSpec.EndFailures | main/octopus-nodejs-dev.js:459-467 | the failures reported are exactly the modules whose end fails; the loop never stops early |
| EngineSpec.BusinessLogicSkipsFinalizeAsWritten | main/octopus-nodejs-dev.js:441-445 | as written, a BusinessLogic failure leaves every context unfinalised; corrected, the response is the same and every context is finalised |
| EngineSpec.ExecuteAsWrittenOtherwiseAgrees | main/octopus-nodejs-dev.js:440-457 | for every other outcome, the code as written and the corrected code agree |
| EngineSpec.ConnectionLeftHeldAsWritten | main/octopus-nodejs-dev.js:441-456 | START TRANSACTION then a check that finds a row, which both the written and the corrected guard let through: as written the 409 answer leaves the connection acquired and unreleased; corrected, the same answer is given and the connection is released |
| Engine.OctopusEngine.constructor | main/octopus-nodejs-dev.js:373-377 | a new engine has the program and no modules |
| Engine.OctopusEngine.Initialize | main/octopus-nodejs-dev.js:379-390 | result and registered modules are those of the initialisation specification |
| Engine.OctopusEngine.InstantiateContexts | main/octopus-nodejs-dev.js:420-422 | one fresh, separate context per module, matching `InitialSlots` |
| Engine.OctopusEngine.SeedVariables | main/octopus-nodejs-dev.js:423-427 | succeeds iff seeding the declarations succeeds, leaving exactly the seeded variables; otherwise returns seeding's error |
| Engine.OctopusEngine.Step | main/octopus-nodejs-dev.js:435-438 | one statement's result, variables, contexts and response calls are those of the statement specification |
| Engine.OctopusEngine.RunStatements | main/octopus-nodejs-dev.js:434-439 | the loop's result, variables, contexts and response calls are those of the in-order run |
| Engine.OctopusEngine.Respond | main/octopus-nodejs-dev.js:440-450 | the response gets exactly the failure answer |
| Engine.OctopusEngine.FinalizeContexts | main/octopus-nodejs-dev.js:451-456 | every context is finalised, each independently of the others' failures |
| Engine.OctopusEngine.Execute | main/octopus-nodejs-dev.js:431-457 | result, response calls and final contexts are those of the corrected `execute` specification |
| Engine.OctopusEngine.Finalize | main/octopus-nodejs-dev.js:459-467 | reports exactly the modules whose end failed, after trying every one |
| Engine.Serve | main/octopus-nodejs-dev.js:363-371 | initialise, execute, then always finalise, as the serving specification says |

## Left out

- Key iteration order: the code iterates module and variable names with `for … in`. For
  integer-like names JavaScript visits them in numeric order, not insertion order. The model uses
  declaration order.
- MysqlSpec.SingleRowObject: the key order it states is insertion order. A JavaScript object, and
  so `JSON.stringify` at :244, lists integer-like keys first in numeric order, so a clause or
  subquery named "1" comes first in the real body.
- Per-request pool: the code re-creates a connection pool on every request inside `initialize`.
  The model gives each MySQL module a `Pool` oracle and does not model the pool's lifetime.
- Pool and connection mechanics: the MySQL driver (connection acquisition, queries, `release`,
  `pool.end`) is the oracle `Pool`. Its answers are function values supplied with the program.
  `release` is recorded in the context's state (`released`). `pool.end` is neither performed nor
  recorded: `Finalize` only reports which modules' `end` fails, as the oracle's `endError` says.
- `mysql.escape` is an uninterpreted function parameter (`Pool.escape`).
- Numbers.NumberOf: models `Number()` only on the empty text and on optionally signed decimal
  digit strings. Texts such as "1.5", "1e3", "0x10" or surrounding spaces, which JavaScript also
  accepts, read as not-a-number here.
- Types.DateGate: keeps only the string-shape gate. The calendar check of `Date.parse` is not
  modelled, and neither is the conversion to a time value. A date keeps its text, and its ISO
  form is the text with a midnight UTC suffix, as `Date.parse` reads a date-only text as UTC.
- Types.DateTimeGate: the same restriction as for dates. `Date.parse` reads a datetime without
  an offset as local time, so its ISO form (the text with a ".000Z" suffix) assumes the host time
  zone is UTC.
- Logging through `console.info` / `console.error` is not modelled.
- The HTTP server, the static file, request-body accumulation and `JSON.parse` of the program
  (lines 471-492) are not modelled. A program is given directly as a `Program` value.
- `async`/`await` is modelled as plain sequencing; there is no concurrency.
- The Node response is a log of its three calls, and it accepts every call. In Node,
  `setHeader` after `writeHead` throws ERR_HTTP_HEADERS_SENT. Two cases reach that: a statement
  fails after an earlier plain or aggregate statement answered, or an aggregate fails after
  writing its 200 head (:236-243). In either case the answer at :447 throws out of `execute`,
  skipping the finalisation loop at :451-456 and leaking an open transaction and its connection.
- EngineSpec.ExecuteReleasesConnections: "every context is finalised whatever the statements did"
  relies on that accepting response log. In Node it holds only for failures raised before any
  response head was written.
- EngineSpec.ConcludeSettles: the same restriction as ExecuteReleasesConnections.
- Engine.OctopusEngine.Execute: the same restriction; it answers a failure after a written head
  and goes on to finalise.
- Result-set cells are accessed by column position (`rows[0][fields[i].name]` becomes
  `rows[0][i]`). A clause index beyond the result's columns is modelled as the error `MissingColumn`.
  When two columns share a name (`SELECT a.id, b.id`), the driver's row object keeps one key, so
  :241, :259, :270 and :280 read that one cell for both columns; the model reads each column's own
  cell.
- Result-set cells are text in the model. The driver returns typed JavaScript values: numbers for
  integer columns, `null`, `Date` objects and `Buffer`s. This affects the members below.
- MysqlSpec.SingleRowObject: renders every cell as a JSON string. `JSON.stringify` at :244
  renders `{"id":7}` and `{"x":null}` where the model renders `{"id":"7"}`, and the model has no
  null.
- MysqlSpec.SubqueryShape: the same text-only cells in the subquery arrays (:256-261).
- MysqlSpec.AssignBindsFirstCell: passes the first cell to `stringToValue` as text. At :270 a
  number reaches `stringToValue` as a number. `string` accepts it unchanged, because
  `(7).length` is undefined. `boolean` rejects a TINYINT `1`. A `null` cell makes `value.length`
  throw a TypeError.
- MysqlSpec.CheckBehaviour: the 409 message at :280 is the first cell as text. In the code
  `BusinessLogicException` hands the cell to `Error` (:12-13), which converts it to a string. So a
  number or `null` cell gives its text ("7", "null"), and `JSON.stringify` quotes it as the model
  does. Only a `Date` or `Buffer` cell's text (`Date.prototype.toString`, the decoded bytes) is
  not reproduced.
- Errors raised while seeding variables or in `initialize` escape from `execute` without any
  response being written. This is as in the code; the model returns them as the result.
- The `request` argument is never read by the core, so it is not modelled.

## Findings

| source | as written | input that shows it | evidently intended | confidence | as-written member | corrected member |
|---|---|---|---|---|---|---|
| main/octopus-nodejs-dev.js:190-194 | every body fragment is a string, so `typeof fragment==="string"` always holds and a `:name` fragment is sent to MySQL literally | body `["SELECT name FROM person WHERE id=", ":id"]` with `id` = 7 sends `SELECT name FROM person WHERE id=:id` | a `:name` fragment is replaced by the variable's SQL text, as in the plain body at :150 | not executed | MysqlSpec.VariableNotSubstitutedAsWritten | MysqlSpec.AssembleConcat |
| main/octopus-nodejs-dev.js:274 | `check` is refused only when `requireTransaction===false` and no transaction is open | a check with `requireTransaction` absent outside a transaction runs; one with `false` is refused | refuse outside a transaction unless the check is marked as not requiring one | not executed | MysqlSpec.CheckGuardInvertedAsWritten | MysqlSpec.CheckBehaviour |
| main/octopus-nodejs-dev.js:70-80 | a `string(N)` type has no `valueToString`, so a plain body naming such a variable fails at :152 | variable declared `string(5)` with value "abc", body `[":name"]` | serialise a bounded string as its text, like the unbounded one | not executed | HttpModule.BoundedStringInPlainBodyAsWritten | Types.StringRoundTrip |
| main/octopus-nodejs-dev.js:441-445 | a BusinessLogic failure `return`s from `execute` before the finalisation loop at :451-456 | `START TRANSACTION`, then a check (no `requireTransaction`) whose query returns a row: both the written and the corrected guard let the check run, the answer is 409, and the acquired connection is never released | answer the failure, then finalise every module context, as the code does for other failures raised before any response head is written | not executed | EngineSpec.ConnectionLeftHeldAsWritten | EngineSpec.ExecuteReleasesConnections |
