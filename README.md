# mahle-new-elysia query core in Dafny

A model of the query core of an Elysia service that serves vehicle session data out of AWS Athena. The model covers three parts.

- **`AthenaService.executeQuery`** (module `AthenaService`). It submits a SQL text, polls the execution status while it is `RUNNING` or `QUEUED`, throws when the status is `FAILED`, and otherwise fetches the result set once.
  - The Athena client is replaced by a finite script (`Backend`). The script holds the answer to the submit, the answers to the successive polls, and the answer to the fetch.
  - `Execute` is the specification function of a run: the trace of calls made, and the outcome. `ExecuteQuery` is the loop itself, proved equal to `Execute`.
  - There is no time-out. When the script runs out of poll answers while the query is still in progress, the run is `StillWaiting`.
- **`QueryController`** (module `QueryController`). These are the SQL template builders and the `runQuery` pass-through.
  - Each builder's output is read back: `ReadBack`, `LimitIn` and `ReadParams` recover the session id and the `LIMIT` from the text. This shows which arguments reach the SQL and which do not.
- **The `/query` routes** (module `QueryRoutes`).
  - Row 0 of an Athena result set holds the column names; every later row becomes one record.
  - `Policy` captures how each endpoint turns a row into a record: which cells it skips and which columns it turns into numbers with `parseInt`.
  - `BuildRecord` is the `forEach` loop that fills a record one cell at a time, proved equal to the fold `RecordOf`.
  - The handlers' replies (`Response`) are built from the run's outcome: success with records and metadata, the endpoint's "no data" text, or the error text.

Supporting modules:
- `JsText`: the JavaScript semantics the code relies on.
  - `parseInt` with no radix: leading whitespace, a sign, a `0x`/`0X` prefix that selects radix 16, and `NaN` (`None`) when there is no digit.
  - The decimal text a template literal inserts for an integral number.
  - `endsWith` and `includes`.
- `ResultSets`: the Athena `ResultSet`, `Row` and `Datum` shapes. A missing `Rows`, `Data` or `VarCharValue` is an `Option`.
- `Wrappers`: `Option`.

Behaviour of the code that the model keeps as written:
- Only the literal status `FAILED` aborts a run. An absent or empty state also counts as `FAILED`. `CANCELLED` and every other terminal status still fetch and return the results.
- A result that has only its header row passes the "no data" check. The reply is a success with no records and a total of 0.
- Screen-navigation and session-emsdtc coerce every column whose name *contains* `time`, so `tx_timestamp` is coerced there. Session-data coerces only names that *end* in `time`.
- Event-logging reports `limit || 100` in its metadata, but the SQL it submits always says `LIMIT 1000`.
- Session-emsdtc replies "No screen navigation data found" when it has no rows.
- `/session-details` and `/all-data` reply with the bare `error.message`, which may be undefined. The other handlers fall back to `'Unknown error'`.
- The session id goes into the SQL between single quotes with no escaping.

## Model

| member | source | states |
|---|---|---|
| AthenaService.StatusOf | src/services/aws/athena.service.ts:38 | the status is FAILED exactly when the state is absent, empty or FAILED; otherwise it is the state itself |
| AthenaService.FirstSettling | src/services/aws/athena.service.ts:33-39 | every poll answer before the returned position is an answered RUNNING/QUEUED; the answer at that position, when there is one, ends the loop |
| AthenaService.Polls | src/services/aws/athena.service.ts:35-37 | n polls, each a GetQueryExecution for the same id |
| AthenaService.ExecuteQuery | src/services/aws/athena.service.ts:16-56 | the loop's trace of calls and its outcome are exactly those of the run `Execute` |
| AthenaService.CountsWithId | src/services/aws/athena.service.ts:28-51 | once an id is known: one submit, one poll more than the position of the first settling answer, and one fetch exactly when the loop stopped on an answered status other than FAILED |
| AthenaService.SubmitsOnceFirst | src/services/aws/athena.service.ts:20-28 | every run starts with the one submit, carrying the query text, output location and work group unchanged |
| AthenaService.MissingIdThrows | src/services/aws/athena.service.ts:28-29 | a missing or empty QueryExecutionId throws 'Failed to get QueryExecutionId' after the submit alone: no poll and no fetch |
| AthenaService.PollCount | src/services/aws/athena.service.ts:32-39 | with an id there is at least one poll; the poll count is 1 plus the index of the first answer that is not RUNNING/QUEUED |
| AthenaService.FetchRule | src/services/aws/athena.service.ts:41-51 | the results are fetched at most once, exactly when an id was obtained and the loop stopped on a non-FAILED answered status, and the fetch is the last call |
| AthenaService.OnlyFailedAborts | src/services/aws/athena.service.ts:41-51 | when the loop stops on an answer, the run throws 'Query execution failed' iff the state is absent, empty or FAILED, and returns the fetched result set unchanged iff it is anything else |
| AthenaService.CancelledStillFetches | src/services/aws/athena.service.ts:41-51 | a CANCELLED status still leads to the fetch, and its result set is returned |
| AthenaService.QueuedRunningSucceeded | src/services/aws/athena.service.ts:33-51 | QUEUED, RUNNING, RUNNING, SUCCEEDED gives four polls, then one fetch, whose result set is returned |
| AthenaService.ErrorsEndTheRun | src/services/aws/athena.service.ts:52-55 | an error from the submit, a poll or the fetch is rethrown unchanged, and the failing call is the last one made |
| AthenaService.StillWaitingRule | src/services/aws/athena.service.ts:33-39 | the run is still waiting iff an id was obtained and every scripted poll answer is an answered RUNNING or QUEUED (no time-out) |
| AthenaService.SameExecutionId | src/services/aws/athena.service.ts:35-48 | every call after the submit is a poll or fetch for the id the submit returned |
| QueryController.RunQuery | src/controllers/query.controller.ts:13-14 | the first call of the run submits the caller's text unchanged |
| QueryController.SplitAtLast | src/controllers/query.controller.ts:18 | splits a text around its last quote, with no quote after it (the inverse of quoting an id) |
| QueryController.ReadBackOfQuoted | src/controllers/query.controller.ts:18 | an id quoted after a head reads back exactly, whatever it contains, when no quote follows |
| QueryController.SessionDataQueryReadBack | src/controllers/query.controller.ts:17-18 | the getSessionData text yields back its session id and its limit, 0 when undefined |
| QueryController.SessionDataQueryInjective | src/controllers/query.controller.ts:17-18 | two getSessionData texts are equal only for the same id and the same effective limit |
| QueryController.ScreenNavigationQueryReadBack | src/controllers/query.controller.ts:33-34 | the getScreenNavigationData text yields back its session id and its limit, 1000 when undefined |
| QueryController.SessionEmsDtcQueryReadBack | src/controllers/query.controller.ts:38-39 | the getSessionEmsDtcData text yields back its session id and its limit, 1000 when undefined |
| QueryController.OffsetIgnored | src/controllers/query.controller.ts:33-39 | the offset never changes the screen-navigation or session-emsdtc text |
| QueryController.EventLoggingQueryReadBack | src/controllers/query.controller.ts:43-44 | the getEventLoggingData text is the id followed by one fixed tail, ordered by tx_timestamp ASC with LIMIT 1000, whatever the limit and offset |
| QueryController.VehicleInformationQueryReadBack | src/controllers/query.controller.ts:27-28 | the getVehicleInformation text is the id followed by one fixed tail |
| QueryController.SessionIdVerbatim | src/controllers/query.controller.ts:17-44 | every builder that takes a session id contains it verbatim between single quotes |
| QueryController.QuoteInIdIsNotEscaped | src/controllers/query.controller.ts:18 | an id containing quotes is pasted in unescaped, so it becomes SQL |
| JsText.TrimStart | src/routes/query.routes.ts:84 | parseInt's first step keeps a suffix of the text that does not start with whitespace |
| JsText.DigitPrefix | src/routes/query.routes.ts:84 | the longest prefix made of digits of the radix |
| JsText.Digits | src/controllers/query.controller.ts:18 | the decimal digits of a number are non-empty digits without a leading zero |
| JsText.DigitsValueOfDigits | src/controllers/query.controller.ts:18 | the decimal digits of n denote n |
| JsText.ParseIntSkipsWhitespace | src/routes/query.routes.ts:84 | parseInt ignores leading whitespace |
| JsText.ParseIntSign | src/routes/query.routes.ts:84 | a leading '-' negates the reading and a leading '+' changes nothing |
| JsText.ParseIntDecimal | src/routes/query.routes.ts:84 | a maximal run of decimal digits gives its value, whatever non-digit text follows |
| JsText.ParseIntNoDigit | src/routes/query.routes.ts:84 | text that starts with no digit, sign or whitespace gives NaN |
| JsText.ParseIntHexExamples | src/routes/query.routes.ts:84 | without a radix, "0x1A" is read as hexadecimal 26 and "0x" gives NaN |
| JsText.ParseIntOfNumberText | src/controllers/query.controller.ts:18 | parseInt reads back every integer from the text a template literal inserts for it (round trip) |
| JsText.EndsWithIncludes | src/routes/query.routes.ts:273 | a name that ends in a text also includes it |
| QueryRoutes.Headers | src/routes/query.routes.ts:75 | one column name per cell of row 0: its VarCharValue, possibly absent; none when row 0 has no Data |
| QueryRoutes.KeyAt | src/routes/query.routes.ts:78-80 | the skipping endpoints write a cell iff its column name is present and non-empty, under that name; all-data writes every cell, under "undefined" when the name is missing |
| QueryRoutes.Plain | src/routes/query.routes.ts:330 | an uncoerced cell keeps its text, and is undefined exactly when it has none |
| QueryRoutes.Coerce | src/routes/query.routes.ts:84 | an absent or empty value becomes null; otherwise the value is parseInt's number, or NaN exactly when parseInt finds no digit |
| QueryRoutes.RecordOf | src/routes/query.routes.ts:76-91 | the record of a row has at most one key per cell; RecordKeys gives its keys exactly and RecordLastWriteWins its values |
| QueryRoutes.BuildRecord | src/routes/query.routes.ts:77-89 | the forEach loop leaves in rowData the record `RecordOf` describes: the cells written in order, each under its key |
| QueryRoutes.Materialize | src/routes/query.routes.ts:67-91 | None (the no-data case) iff the result has no rows; otherwise one record per row after the header row, in row order, each the record of that row |
| QueryRoutes.SessionIds | src/routes/query.routes.ts:218-220 | at most one id per row, and never the empty text |
| QueryRoutes.OrDefault | src/routes/query.routes.ts:64 | JavaScript's falsy default for an optional number: the value when it is present and non-zero, the default otherwise |
| QueryRoutes.ErrorText | src/routes/query.routes.ts:101-106 | the error message when it is non-empty, 'Unknown error' otherwise; never empty |
| QueryRoutes.RecordKeys | src/routes/query.routes.ts:173-176 | a record's keys are exactly the keys of its cells |
| QueryRoutes.SkippingRecordKeys | src/routes/query.routes.ts:78-80 | in the skipping endpoints the keys are exactly the present, non-empty column names at positions below the row's cell count |
| QueryRoutes.UnnamedCellsUnderUndefined | src/routes/query.routes.ts:174-176 | in all-data, a cell with no column name puts a value under the key "undefined" |
| QueryRoutes.RecordLastWriteWins | src/routes/query.routes.ts:88 | of several cells with the same key, the record holds the last one's value |
| QueryRoutes.UncoercedKeepsValue | src/routes/query.routes.ts:82-88 | a column the endpoint does not coerce keeps the cell's original text |
| QueryRoutes.CoercedValue | src/routes/query.routes.ts:82-88 | a coerced column holds `value ? parseInt(value) : null` of its cell |
| QueryRoutes.DuplicateColumnExample | src/routes/query.routes.ts:173-176 | with two columns named "a", the record keeps the second cell |
| QueryRoutes.CoerceNumberText | src/routes/query.routes.ts:84 | the decimal text of any integer coerces to that integer; "0" becomes 0, not null |
| QueryRoutes.CoercionPolicies | src/routes/query.routes.ts:273 | every name session-data coerces for ending in "time" is coerced by screen-navigation too, but not the converse (tx_timestamp) |
| QueryRoutes.HeaderOnlyResult | src/routes/query.routes.ts:67-76 | a header-only result passes the no-data check and gives no records |
| QueryRoutes.SessionIdsAppend | src/routes/query.routes.ts:218-220 | the ids of consecutive row runs are the ids of each run, in order |
| QueryRoutes.SessionIdsMembership | src/routes/query.routes.ts:218-220 | a text is listed iff it is non-empty and is the column-0 text of some data row |
| QueryRoutes.RecordsReply | src/routes/query.routes.ts:67-106 | a thrown error gives its text (with or without the 'Unknown error' fallback); no rows gives the endpoint's no-data text; otherwise success whose data are exactly the records `Materialize` builds, one per data row in order, and whose metadata.total is the record count |
| QueryRoutes.SessionDetailsReply | src/routes/query.routes.ts:135-142 | the raw result set is the data, with no no-data check; a failure carries the bare error.message |
| QueryRoutes.SessionsReply | src/routes/query.routes.ts:207-234 | no rows gives 'No session IDs found' and an error gives its text; a result with rows is a success whose data are `SessionIds` of the data rows, which never lists "", with total equal to its length |
| QueryRoutes.HeaderOnlyReply | src/routes/query.routes.ts:93-100 | a header-only result is a success with no records and a total of 0 |
| QueryRoutes.SessionDataRequestLimit | src/routes/query.routes.ts:62-65 | /session-data submits its id and limit or 1000, so the controller's default limit of 0 is never used |
| QueryRoutes.SessionRoutesRequestLimit | src/routes/query.routes.ts:254 | /screen-navigation and /session-emsdtc submit limit or 100, the limit their metadata reports |
| QueryRoutes.EventLoggingRequestLimit | src/routes/query.routes.ts:312 | /event-logging submits LIMIT 1000 whatever limit its metadata reports |
| QueryRoutes.AllDataQueryLimit | src/routes/query.routes.ts:155-160 | the LIMIT in the /all-data text reads back as limit or 1000, the limit its metadata reports |
| QueryRoutes.AllDataQueryOffset | src/routes/query.routes.ts:159 | the number after OFFSET in the /all-data text reads back as offset or 0, the offset its metadata reports |
| QueryRoutes.SessionDetailsQueryParameters | src/routes/query.routes.ts:130-133 | the /session-details text contains the session id between quotes, and the number after LIMIT reads back as limit or 1000 |
| QueryRoutes.SessionDetailsFalsyParameters | src/routes/query.routes.ts:131-133 | in /session-details a start or end time of 0 adds no filter, and a limit that is 0 or absent means 1000 |
| QueryRoutes.SessionDetailsTimeFilters | src/routes/query.routes.ts:131-132 | a truthy start or end time adds its condition to the /session-details text |

## Left out

- The AWS SDK calls (`AthenaClient.send` and its command objects) are foreign calls. A scripted `Backend` stands in for them, and the configured output location and work group are a parameter (`AthenaConfig`).
- The one-second `setTimeout` between polls and the async scheduling are left out: the model has no time and no interleaving.
- `console.log` and `console.error` output is left out.
- The `/databases` and `/tables/:database` routes and `src/services/aws/glue.service.ts` are thin pass-throughs to AWS Glue and are not part of this model. The same error fallback is modelled by `ErrorText`.
- `src/index.ts`, `src/config/aws.config.ts`, `src/routes/health.ts` and `src/routes/api.ts` are framework wiring, environment reading, a clock and a constant, and are not part of this model.
- Elysia's body schemas, their defaults and request validation are framework behaviour. The handlers receive optional numbers as `Option<int>`, with None for undefined.
- The query strings built but never run in /screen-navigation and /session-emsdtc (src/routes/query.routes.ts:246-253 and 366-373) are left out. The commented-out `/execute` route is left out too.
- JSON serialisation of a reply is left out: undefined values being dropped, NaN becoming null, and the order of keys in a JavaScript object.
- A column named `__proto__` is left out: the model treats it like any other key.
- JsText.ParseInt returns the exact integer. JavaScript rounds values beyond 2^53 to the nearest double, and the model does not capture that rounding.
- JsText.NumberText covers integers only. Non-integer numbers, -0, NaN and numbers at or above 1e21 (which JavaScript writes in exponent form) are not modelled.
- A thrown value without a `message` property is modelled as an `Error` whose message is None. A thrown `null` or `undefined` is left out.
- The route functions `SessionDataRoute`, `SessionDetailsRoute`, `AllDataRoute`, `SessionsRoute`, `ScreenNavigationRoute`, `EventLoggingRoute` and `SessionEmsDtcRoute` (src/routes/query.routes.ts:59-428) have no contract of their own. Each one only connects a request text, the run `Execute` and a reply function. Those three parts carry the contracts, listed above.
- The definitions below have no contract of their own either. Each is the specification that the listed lemmas and methods state properties of.
  - `AthenaService.Execute` (src/services/aws/athena.service.ts:16-56) is specified by ExecuteQuery, CountsWithId, SubmitsOnceFirst, MissingIdThrows, PollCount, FetchRule, OnlyFailedAborts, ErrorsEndTheRun, StillWaitingRule and SameExecutionId.
  - `JsText.ParseInt` (src/routes/query.routes.ts:84) is specified by ParseIntSkipsWhitespace, ParseIntSign, ParseIntDecimal, ParseIntNoDigit, ParseIntHexExamples and ParseIntOfNumberText.
  - `JsText.NumberText` (src/controllers/query.controller.ts:18) is specified by ParseIntOfNumberText and, through Digits, by DigitsValueOfDigits.
  - The controller builders `SessionDataQuery`, `AllSessionIdsQuery`, `VehicleInformationQuery`, `ScreenNavigationQuery`, `SessionEmsDtcQuery` and `EventLoggingQuery` (src/controllers/query.controller.ts:17-47) are specified by the `*ReadBack` lemmas, SessionDataQueryInjective, OffsetIgnored, SessionIdVerbatim and QuoteInIdIsNotEscaped. `AllSessionIdsQuery` takes no argument, so it is one fixed text.
  - `QueryRoutes.SessionDetailsQuery`, `QueryRoutes.TimeFilter` and `QueryRoutes.AllDataQuery` (src/routes/query.routes.ts:118-134 and 155-160) are specified by SessionDetailsQueryParameters, SessionDetailsFalsyParameters, SessionDetailsTimeFilters, AllDataQueryLimit and AllDataQueryOffset.
  - The four `*Request` functions (src/routes/query.routes.ts:62-65, 254, 312, 374) are specified by SessionDataRequestLimit, SessionRoutesRequestLimit and EventLoggingRequestLimit.
  - `QueryRoutes.Coerces` (src/routes/query.routes.ts:83-87, 273, 393) is specified by CoercionPolicies.
  - `QueryRoutes.CellValue` (src/routes/query.routes.ts:82-88) is specified by UncoercedKeepsValue and CoercedValue.
  - `QueryRoutes.HasRows` (src/routes/query.routes.ts:67) is specified by Materialize and RecordsReply.
  - `QueryRoutes.FirstCellText` (src/routes/query.routes.ts:219) is specified by SessionIdsMembership.
