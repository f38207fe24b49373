/**
 * The /query routes: each handler runs a query through the controller and shapes
 * the Athena result set into a JSON reply.
 *
 * Row 0 of a result set holds the column names. Every later row becomes one record,
 * keyed by the name at the same position. Some endpoints turn chosen columns into
 * numbers with parseInt.
 */
module QueryRoutes {
  import opened Wrappers
  import opened JsText
  import opened ResultSets
  import opened AthenaService
  import opened QueryController

  /** A JSON value of a record: a string, a parseInt result (a number or NaN), null, or undefined. */
  datatype Value = Str(s: string) | Int(n: int) | NaN | Null | Undef

  type Record = map<string, Value>

  /**
   * How an endpoint turns a row into a record:
   * - SuffixTimeMethodCode (session-data): skip missing or empty column names, and
   *   coerce columns whose name ends in `time` or is `method` or `decimal_response_code`;
   * - ContainsTimeProcessedTs (screen-navigation, session-emsdtc): skip as above, and
   *   coerce columns whose name contains `time` or is `processed_ts`;
   * - Raw (event-logging): skip as above, keep every value;
   * - RawNoSkip (all-data): no skipping and no coercion.
   */
  datatype Policy = SuffixTimeMethodCode | ContainsTimeProcessedTs | Raw | RawNoSkip

  /** The column names: the `VarCharValue`s of row 0, none when it has no `Data`. */
  function Headers(headerRow: Row): (headers: seq<Option<string>>)
    ensures |headers| == |headerRow.Cells()|
    ensures forall i :: 0 <= i < |headers| ==> headers[i] == headerRow.Cells()[i].varCharValue
  {
    var cells := headerRow.Cells();
    seq(|cells|, i requires 0 <= i < |cells| => cells[i].varCharValue)
  }

  /**
   * The key the cell at `index` is written under, or None when it is skipped. A
   * skipping endpoint drops a cell whose column name is missing or empty; all-data
   * writes it under the JavaScript key "undefined" when the name is missing.
   */
  function KeyAt(headers: seq<Option<string>>, index: nat, policy: Policy): (key: Option<string>)
    ensures policy != RawNoSkip ==>
      (key.Some? <==> index < |headers| && headers[index].Some? && headers[index].value != "")
    ensures policy != RawNoSkip && key.Some? ==> key == headers[index]
    ensures policy == RawNoSkip ==> key.Some?
    ensures policy == RawNoSkip && index < |headers| && headers[index].Some? ==> key == headers[index]
    ensures policy == RawNoSkip && !(index < |headers| && headers[index].Some?) ==> key == Some("undefined")
  {
    var header := if index < |headers| then headers[index] else None;
    if policy == RawNoSkip then Some(if header.Some? then header.value else "undefined")
    else if header.None? || header.value == "" then None
    else header
  }

  /** Whether the endpoint turns the column `name` into a number. */
  predicate Coerces(policy: Policy, name: string) {
    match policy
    case SuffixTimeMethodCode => EndsWith(name, "time") || name == "method" || name == "decimal_response_code"
    case ContainsTimeProcessedTs => Includes(name, "time") || name == "processed_ts"
    case Raw => false
    case RawNoSkip => false
  }

  /** A cell value kept as it is: its text, or undefined when it has none. */
  function Plain(text: Option<string>): (v: Value)
    ensures v.Str? <==> text.Some?
    ensures text.Some? ==> v.s == text.value
    ensures text.None? ==> v == Undef
  {
    if text.None? then Undef else Str(text.value)
  }

  /** `value ? parseInt(value) : null`. */
  function Coerce(text: Option<string>): (v: Value)
    ensures v == Null <==> text.None? || text == Some("")
    ensures v.Int? <==> text.Some? && text.value != "" && ParseInt(text.value).Some?
    ensures v.Int? ==> ParseInt(text.value) == Some(v.n)
    ensures v == NaN <==> text.Some? && text.value != "" && ParseInt(text.value).None?
  {
    if text.None? || text.value == "" then Null
    else
      var n := ParseInt(text.value);
      if n.None? then NaN else Int(n.value)
  }

  /** The value written for a cell under the column `name`. */
  function CellValue(policy: Policy, name: string, cell: Datum): Value {
    if Coerces(policy, name) then Coerce(cell.varCharValue) else Plain(cell.varCharValue)
  }

  /**
   * The record a row becomes: the cells written one after another into an empty
   * object, each under its key, so that a later cell overwrites an earlier one.
   */
  function RecordOf(headers: seq<Option<string>>, cells: seq<Datum>, policy: Policy): (record: Record)
    ensures |record| <= |cells|
  {
    if cells == [] then map[]
    else
      var record := RecordOf(headers, cells[..|cells| - 1], policy);
      var key := KeyAt(headers, |cells| - 1, policy);
      if key.None? then record else record[key.value := CellValue(policy, key.value, cells[|cells| - 1])]
  }

  /** The `row.Data?.forEach(...)` loop that fills `rowData` one cell at a time. */
  method BuildRecord(headers: seq<Option<string>>, row: Row, policy: Policy) returns (rowData: Record)
    ensures rowData == RecordOf(headers, row.Cells(), policy)
  {
    rowData := map[];
    if row.data.None? {
      return;
    }
    var cells := row.data.value;
    var index := 0;
    while index < |cells|
      invariant 0 <= index <= |cells|
      invariant rowData == RecordOf(headers, cells[..index], policy)
    {
      RecordOfStep(headers, cells, index, policy);
      var key := KeyAt(headers, index, policy);
      if key.Some? {
        rowData := rowData[key.value := CellValue(policy, key.value, cells[index])];
      }
      index := index + 1;
    }
    assert cells[..|cells|] == cells;
  }

  /** One more cell written into the record of the cells before it. */
  lemma RecordOfStep(headers: seq<Option<string>>, cells: seq<Datum>, index: nat, policy: Policy)
    requires index < |cells|
    ensures var key := KeyAt(headers, index, policy);
      RecordOf(headers, cells[..index + 1], policy) ==
        if key.None? then RecordOf(headers, cells[..index], policy)
        else RecordOf(headers, cells[..index], policy)[key.value := CellValue(policy, key.value, cells[index])]
  {
    assert cells[..index + 1][..index] == cells[..index];
  }

  /** `result?.Rows?.length` is truthy: the result has at least one row. */
  predicate HasRows(result: Option<ResultSet>) {
    result.Some? && result.value.rows.Some? && |result.value.rows.value| > 0
  }

  /**
   * The records of a result: one per row after the header row, in row order. None
   * stands for the "no data" case.
   */
  function Materialize(result: Option<ResultSet>, policy: Policy): (records: Option<seq<Record>>)
    ensures records.Some? <==> HasRows(result)
    ensures records.Some? ==> |records.value| == |result.value.rows.value| - 1
    ensures records.Some? ==> forall i :: 0 <= i < |records.value| ==>
      records.value[i] == RecordOf(Headers(result.value.rows.value[0]), result.value.rows.value[i + 1].Cells(), policy)
  {
    if !HasRows(result) then None
    else
      var rows := result.value.rows.value;
      var headers := Headers(rows[0]);
      Some(seq(|rows| - 1, i requires 0 <= i < |rows| - 1 => RecordOf(headers, rows[i + 1].Cells(), policy)))
  }

  /** `row.Data?.[0]?.VarCharValue || ''`. */
  function FirstCellText(row: Row): string {
    var cells := row.Cells();
    if cells != [] && cells[0].varCharValue.Some? then cells[0].varCharValue.value else ""
  }

  /** The session ids of the data rows: column 0 of each, in order, with the empty ones removed. */
  function SessionIds(rows: seq<Row>): (ids: seq<string>)
    ensures |ids| <= |rows|
    ensures forall i :: 0 <= i < |ids| ==> ids[i] != ""
  {
    if rows == [] then []
    else
      var id := FirstCellText(rows[0]);
      (if id == "" then [] else [id]) + SessionIds(rows[1..])
  }

  /** `x || d` for an optional number: the default when it is undefined or 0. */
  function OrDefault(x: Option<int>, d: int): (r: int)
    ensures x.Some? && x.value != 0 ==> r == x.value
    ensures x.None? || x == Some(0) ==> r == d
  {
    if x.None? || x.value == 0 then d else x.value
  }

  /** `error?.message || 'Unknown error'`. */
  function ErrorText(e: Error): (text: string)
    ensures text != ""
    ensures e.message.Some? && e.message.value != "" ==> text == e.message.value
    ensures e.message.None? || e.message == Some("") ==> text == "Unknown error"
  {
    if e.message.None? || e.message.value == "" then "Unknown error" else e.message.value
  }

  // ---------------------------------------------------------------------------
  // Properties of the records.

  /** A record's keys are exactly the keys of its cells. */
  lemma {:induction false} RecordKeys(headers: seq<Option<string>>, cells: seq<Datum>, policy: Policy, k: string)
    ensures k in RecordOf(headers, cells, policy) <==> exists i :: 0 <= i < |cells| && KeyAt(headers, i, policy) == Some(k)
  {
    if cells != [] {
      var prefix := cells[..|cells| - 1];
      RecordKeys(headers, prefix, policy, k);
      if exists i :: 0 <= i < |cells| && KeyAt(headers, i, policy) == Some(k) {
        var i :| 0 <= i < |cells| && KeyAt(headers, i, policy) == Some(k);
        if i < |cells| - 1 {
          assert 0 <= i < |prefix| && KeyAt(headers, i, policy) == Some(k);
        }
      }
    }
  }

  /**
   * In the skipping endpoints a record's keys are exactly the present, non-empty
   * column names at the positions the row has cells for.
   */
  lemma SkippingRecordKeys(headers: seq<Option<string>>, cells: seq<Datum>, policy: Policy, k: string)
    requires policy != RawNoSkip
    ensures k in RecordOf(headers, cells, policy) <==>
      k != "" && exists i :: 0 <= i < |cells| && i < |headers| && headers[i] == Some(k)
  {
    RecordKeys(headers, cells, policy, k);
    if k != "" && exists i :: 0 <= i < |cells| && i < |headers| && headers[i] == Some(k) {
      var i :| 0 <= i < |cells| && i < |headers| && headers[i] == Some(k);
      assert KeyAt(headers, i, policy) == Some(k);
    }
  }

  /**
   * all-data writes every cell: a row with more cells than there are column names,
   * or a cell under a missing name, puts a value under the key "undefined".
   */
  lemma UnnamedCellsUnderUndefined(headers: seq<Option<string>>, cells: seq<Datum>, i: nat)
    requires i < |cells|
    requires i >= |headers| || headers[i].None?
    ensures "undefined" in RecordOf(headers, cells, RawNoSkip)
  {
    RecordKeys(headers, cells, RawNoSkip, "undefined");
    assert KeyAt(headers, i, RawNoSkip) == Some("undefined");
  }

  /**
   * When several cells share a key, the record holds the value of the last of them:
   * later writes overwrite earlier ones.
   */
  lemma {:induction false} RecordLastWriteWins(headers: seq<Option<string>>, cells: seq<Datum>, policy: Policy, j: nat)
    requires j < |cells| && KeyAt(headers, j, policy).Some?
    requires forall i :: j < i < |cells| ==> KeyAt(headers, i, policy) != KeyAt(headers, j, policy)
    ensures var k := KeyAt(headers, j, policy).value;
      k in RecordOf(headers, cells, policy) && RecordOf(headers, cells, policy)[k] == CellValue(policy, k, cells[j])
  {
    if j < |cells| - 1 {
      var prefix := cells[..|cells| - 1];
      assert prefix[j] == cells[j];
      RecordLastWriteWins(headers, prefix, policy, j);
    }
  }

  /**
   * A column the endpoint does not coerce keeps its value: the text of the last cell
   * under the key, or undefined. event-logging and all-data coerce no column at all.
   */
  lemma UncoercedKeepsValue(headers: seq<Option<string>>, cells: seq<Datum>, policy: Policy, j: nat)
    requires j < |cells| && KeyAt(headers, j, policy).Some?
    requires !Coerces(policy, KeyAt(headers, j, policy).value)
    requires forall i :: j < i < |cells| ==> KeyAt(headers, i, policy) != KeyAt(headers, j, policy)
    ensures KeyAt(headers, j, policy).value in RecordOf(headers, cells, policy)
    ensures RecordOf(headers, cells, policy)[KeyAt(headers, j, policy).value] == Plain(cells[j].varCharValue)
  {
    RecordLastWriteWins(headers, cells, policy, j);
  }

  /** A column the endpoint coerces holds `value ? parseInt(value) : null` of the last cell under the key. */
  lemma CoercedValue(headers: seq<Option<string>>, cells: seq<Datum>, policy: Policy, j: nat)
    requires j < |cells| && KeyAt(headers, j, policy).Some?
    requires Coerces(policy, KeyAt(headers, j, policy).value)
    requires forall i :: j < i < |cells| ==> KeyAt(headers, i, policy) != KeyAt(headers, j, policy)
    ensures KeyAt(headers, j, policy).value in RecordOf(headers, cells, policy)
    ensures RecordOf(headers, cells, policy)[KeyAt(headers, j, policy).value] == Coerce(cells[j].varCharValue)
  {
    RecordLastWriteWins(headers, cells, policy, j);
  }

  /** A duplicated column name keeps the later cell. */
  lemma DuplicateColumnExample()
    ensures RecordOf([Some("a"), Some("a")], [Datum(Some("x")), Datum(Some("y"))], Raw) == map["a" := Str("y")]
  {
    var cells := [Datum(Some("x")), Datum(Some("y"))];
    assert cells[..1][..0] == [];
  }

  /** A coerced column holding the decimal text of a number becomes that number; "0" becomes 0. */
  lemma CoerceNumberText(n: int)
    ensures Coerce(Some(NumberText(n))) == Int(n)
    ensures Coerce(Some("0")) == Int(0)
  {
    CoerceText(n, NumberText(n));
    CoerceText(0, "0");
  }

  lemma CoerceText(n: int, text: string)
    requires text == NumberText(n)
    ensures Coerce(Some(text)) == Int(n)
  {
    ParseIntOfNumberText(n, []);
    assert text + [] == text;
  }

  /**
   * Every column that session-data coerces for ending in `time` is also coerced by
   * screen-navigation and session-emsdtc, which coerce any name containing `time`;
   * the converse fails, e.g. for `tx_timestamp`.
   */
  lemma CoercionPolicies(name: string)
    ensures EndsWith(name, "time") ==> Coerces(ContainsTimeProcessedTs, name)
    ensures Coerces(ContainsTimeProcessedTs, "tx_timestamp") && !Coerces(SuffixTimeMethodCode, "tx_timestamp")
  {
    if EndsWith(name, "time") {
      EndsWithIncludes(name, "time");
    }
    var t := "tx_timestamp";
    assert t[1..][1..][1..][..4] == "time";
    assert t[|t| - 4..] != "time";
  }

  /** A result with a header row and no other row gives no records. */
  lemma HeaderOnlyResult(header: Row, policy: Policy)
    ensures Materialize(Some(ResultSet(Some([header]))), policy) == Some([])
  {
  }

  /** The session ids of consecutive row runs are the ids of each run, in order. */
  lemma {:induction false} SessionIdsAppend(a: seq<Row>, b: seq<Row>)
    ensures SessionIds(a + b) == SessionIds(a) + SessionIds(b)
  {
    if a == [] {
      assert a + b == b;
    } else {
      assert (a + b)[0] == a[0];
      assert (a + b)[1..] == a[1..] + b;
      SessionIdsAppend(a[1..], b);
    }
  }

  /** A value is listed exactly when it is the non-empty column-0 text of some data row. */
  lemma {:induction false} SessionIdsMembership(rows: seq<Row>, id: string)
    ensures id in SessionIds(rows) <==> id != "" && exists j :: 0 <= j < |rows| && FirstCellText(rows[j]) == id
  {
    if rows != [] {
      SessionIdsMembership(rows[1..], id);
      if exists j :: 0 <= j < |rows| && FirstCellText(rows[j]) == id {
        var j :| 0 <= j < |rows| && FirstCellText(rows[j]) == id;
        if j > 0 {
          assert rows[1..][j - 1] == rows[j];
        }
      }
      if exists j :: 0 <= j < |rows[1..]| && FirstCellText(rows[1..][j]) == id {
        var j :| 0 <= j < |rows[1..]| && FirstCellText(rows[1..][j]) == id;
        assert rows[j + 1] == rows[1..][j];
      }
    }
  }

  // ---------------------------------------------------------------------------
  // The handlers.

  /** The `metadata` object of a reply; a field that the endpoint does not send is None. */
  datatype Metadata = Metadata(total: nat, sessionId: Option<string>, limit: Option<int>, offset: Option<int>)

  /**
   * A handler's reply: `{success: true, data, metadata}`, `{success: false, error}`
   * (the error text may be undefined), or no reply yet because the query is still
   * being polled.
   */
  datatype Response<D> = Success(data: D, metadata: Option<Metadata>) | Failure(error: Option<string>) | Pending

  /**
   * The reply of a handler that turns rows into records: the records and their
   * count, the endpoint's "no data" text when there are no rows at all, and the
   * error text when the query threw (with the 'Unknown error' fallback when
   * `fallback` holds, the bare `error.message` otherwise).
   */
  function RecordsReply(outcome: Execution, policy: Policy, noData: string, fallback: bool,
                        sessionId: Option<string>, limit: Option<int>, offset: Option<int>): (reply: Response<seq<Record>>)
    ensures reply.Pending? <==> outcome.StillWaiting?
    ensures outcome.Threw? ==> reply == Failure(if fallback then Some(ErrorText(outcome.error)) else outcome.error.message)
    ensures outcome.Returned? && !HasRows(outcome.resultSet) ==> reply == Failure(Some(noData))
    ensures outcome.Returned? && HasRows(outcome.resultSet) ==>
      reply.Success? && |reply.data| == |outcome.resultSet.value.rows.value| - 1
    ensures outcome.Returned? && HasRows(outcome.resultSet) ==>
      reply.Success? && reply.data == Materialize(outcome.resultSet, policy).value
    ensures reply.Success? ==> reply.metadata == Some(Metadata(|reply.data|, sessionId, limit, offset))
  {
    match outcome
    case StillWaiting => Pending
    case Threw(e) => Failure(if fallback then Some(ErrorText(e)) else e.message)
    case Returned(result) =>
      var records := Materialize(result, policy);
      if records.None? then Failure(Some(noData))
      else Success(records.value, Some(Metadata(|records.value|, sessionId, limit, offset)))
  }

  /** The text /session-data submits: getSessionData(session_id, limit || 1000). */
  function SessionDataRequest(sessionId: string, limit: Option<int>): string {
    SessionDataQuery(sessionId, Some(OrDefault(limit, 1000)))
  }

  /** POST /session-data. */
  function SessionDataRoute(sessionId: string, limit: Option<int>, config: AthenaConfig, backend: Backend): Response<seq<Record>> {
    var run := Execute(SessionDataRequest(sessionId, limit), config, backend);
    RecordsReply(run.outcome, SuffixTimeMethodCode, "No data found", true, Some(sessionId), None, None)
  }

  const SessionDetailsSelect: string :=
    "\n        SELECT \n          session_id,\n          ems_dtc_rx,\n          ems_dtc_tx,\n" +
    "          ems_dtc_starttime,\n          ems_dtc_endtime,\n          ecu_id,\n          description,\n" +
    "          category,\n          resolved_value\n        FROM silver.ems\n        WHERE session_id = "

  /** `${time ? `<condition> ${time}` : ''}`: the condition with the time, or nothing for a falsy time. */
  function TimeFilter(condition: string, time: Option<int>): string {
    if time.Some? && time.value != 0 then condition + NumberText(time.value) else ""
  }

  /** The `/session-details` template. */
  function SessionDetailsQuery(sessionId: string, startTime: Option<int>, endTime: Option<int>, limit: Option<int>): string {
    SessionDetailsSelect + "'" + sessionId + "'" + "\n        " +
    TimeFilter("AND ems_dtc_starttime >= ", startTime) + "\n        " +
    TimeFilter("AND ems_dtc_endtime <= ", endTime) +
    "\n        LIMIT " + NumberText(OrDefault(limit, 1000)) + "\n      "
  }

  /**
   * The reply of POST /session-details: the raw result set is the data, with no
   * "no data" check, and a failure carries the bare `error.message`.
   */
  function SessionDetailsReply(outcome: Execution): (reply: Response<Option<ResultSet>>)
    ensures reply.Pending? <==> outcome.StillWaiting?
    ensures outcome.Threw? ==> reply == Failure(outcome.error.message)
    ensures outcome.Returned? ==> reply == Success(outcome.resultSet, None)
  {
    match outcome
    case StillWaiting => Pending
    case Threw(e) => Failure(e.message)
    case Returned(result) => Success(result, None)
  }

  /** POST /session-details: runQuery on the template. */
  function SessionDetailsRoute(sessionId: string, startTime: Option<int>, endTime: Option<int>, limit: Option<int>,
                               config: AthenaConfig, backend: Backend): Response<Option<ResultSet>> {
    var query := SessionDetailsQuery(sessionId, startTime, endTime, limit);
    SessionDetailsReply(RunQuery(query, config, backend).outcome)
  }

  const AllDataHead: string := "\n        SELECT *\n        FROM silver.ems\n        LIMIT "

  /** The `/all-data` template. */
  function AllDataQuery(limit: Option<int>, offset: Option<int>): string {
    AllDataHead + NumberText(OrDefault(limit, 1000)) + "\n        OFFSET " + NumberText(OrDefault(offset, 0)) + "\n      "
  }

  /** POST /all-data: runQuery on the template, every cell kept, metadata with the effective limit and offset. */
  function AllDataRoute(limit: Option<int>, offset: Option<int>, config: AthenaConfig, backend: Backend): Response<seq<Record>> {
    var run := RunQuery(AllDataQuery(limit, offset), config, backend);
    RecordsReply(run.outcome, RawNoSkip, "No data found", false, None, Some(OrDefault(limit, 1000)), Some(OrDefault(offset, 0)))
  }

  /** The reply of GET /sessions for the outcome of getAllSessionIds. */
  function SessionsReply(outcome: Execution): (reply: Response<seq<string>>)
    ensures reply.Pending? <==> outcome.StillWaiting?
    ensures outcome.Threw? ==> reply == Failure(Some(ErrorText(outcome.error)))
    ensures outcome.Returned? && !HasRows(outcome.resultSet) ==> reply == Failure(Some("No session IDs found"))
    ensures reply.Success? ==> "" !in reply.data && reply.metadata == Some(Metadata(|reply.data|, None, None, None))
    ensures outcome.Returned? && HasRows(outcome.resultSet) ==>
      reply == Success(SessionIds(outcome.resultSet.value.rows.value[1..]),
                       Some(Metadata(|SessionIds(outcome.resultSet.value.rows.value[1..])|, None, None, None)))
  {
    match outcome
    case StillWaiting => Pending
    case Threw(e) => Failure(Some(ErrorText(e)))
    case Returned(result) =>
      if !HasRows(result) then Failure(Some("No session IDs found"))
      else
        var ids := SessionIds(result.value.rows.value[1..]);
        Success(ids, Some(Metadata(|ids|, None, None, None)))
  }

  /** GET /sessions. */
  function SessionsRoute(config: AthenaConfig, backend: Backend): Response<seq<string>> {
    SessionsReply(Execute(AllSessionIdsQuery(), config, backend).outcome)
  }

  /** The text /screen-navigation submits: getScreenNavigationData(session_id, limit || 100, offset || 0). */
  function ScreenNavigationRequest(sessionId: string, limit: Option<int>, offset: Option<int>): string {
    ScreenNavigationQuery(sessionId, Some(OrDefault(limit, 100)), Some(OrDefault(offset, 0)))
  }

  /** POST /screen-navigation. */
  function ScreenNavigationRoute(sessionId: string, limit: Option<int>, offset: Option<int>,
                                 config: AthenaConfig, backend: Backend): Response<seq<Record>> {
    var run := Execute(ScreenNavigationRequest(sessionId, limit, offset), config, backend);
    RecordsReply(run.outcome, ContainsTimeProcessedTs, "No screen navigation data found", true,
      Some(sessionId), Some(OrDefault(limit, 100)), Some(OrDefault(offset, 0)))
  }

  /** The text /event-logging submits: getEventLoggingData(session_id, limit || 100, offset || 0). */
  function EventLoggingRequest(sessionId: string, limit: Option<int>, offset: Option<int>): string {
    EventLoggingQuery(sessionId, Some(OrDefault(limit, 100)), Some(OrDefault(offset, 0)))
  }

  /** POST /event-logging. */
  function EventLoggingRoute(sessionId: string, limit: Option<int>, offset: Option<int>,
                             config: AthenaConfig, backend: Backend): Response<seq<Record>> {
    var run := Execute(EventLoggingRequest(sessionId, limit, offset), config, backend);
    RecordsReply(run.outcome, Raw, "No event logging data found", true,
      Some(sessionId), Some(OrDefault(limit, 100)), Some(OrDefault(offset, 0)))
  }

  /** The text /session-emsdtc submits: getSessionEmsDtcData(session_id, limit || 100, offset || 0). */
  function SessionEmsDtcRequest(sessionId: string, limit: Option<int>, offset: Option<int>): string {
    SessionEmsDtcQuery(sessionId, Some(OrDefault(limit, 100)), Some(OrDefault(offset, 0)))
  }

  /** POST /session-emsdtc; its "no data" text is the screen-navigation one. */
  function SessionEmsDtcRoute(sessionId: string, limit: Option<int>, offset: Option<int>,
                              config: AthenaConfig, backend: Backend): Response<seq<Record>> {
    var run := Execute(SessionEmsDtcRequest(sessionId, limit, offset), config, backend);
    RecordsReply(run.outcome, ContainsTimeProcessedTs, "No screen navigation data found", true,
      Some(sessionId), Some(OrDefault(limit, 100)), Some(OrDefault(offset, 0)))
  }

  // ---------------------------------------------------------------------------
  // Properties of the handlers.

  /** A header-only result is a success with no records and a total of 0. */
  lemma HeaderOnlyReply(header: Row, policy: Policy, noData: string, fallback: bool,
                        sessionId: Option<string>, limit: Option<int>, offset: Option<int>)
    ensures RecordsReply(Returned(Some(ResultSet(Some([header])))), policy, noData, fallback, sessionId, limit, offset) ==
      Success([], Some(Metadata(0, sessionId, limit, offset)))
  {
    HeaderOnlyResult(header, policy);
  }

  /**
   * /session-data submits the caller's limit when it is truthy and 1000 otherwise,
   * so the controller's default of 0 is never used.
   */
  lemma SessionDataRequestLimit(sessionId: string, limit: Option<int>)
    ensures ReadParams(SessionDataRequest(sessionId, limit), SessionDataHead) == Some((sessionId, Some(OrDefault(limit, 1000))))
    ensures OrDefault(limit, 1000) != 0
  {
    SessionDataQueryReadBack(sessionId, Some(OrDefault(limit, 1000)));
  }

  /**
   * /screen-navigation and /session-emsdtc submit the limit their metadata reports
   * (limit || 100), not the controller's default of 1000.
   */
  lemma SessionRoutesRequestLimit(sessionId: string, limit: Option<int>, offset: Option<int>)
    ensures ReadParams(ScreenNavigationRequest(sessionId, limit, offset), ScreenNavigationHead) == Some((sessionId, Some(OrDefault(limit, 100))))
    ensures ReadParams(SessionEmsDtcRequest(sessionId, limit, offset), SessionEmsDtcHead) == Some((sessionId, Some(OrDefault(limit, 100))))
  {
    ScreenNavigationQueryReadBack(sessionId, Some(OrDefault(limit, 100)), Some(OrDefault(offset, 0)));
    SessionEmsDtcQueryReadBack(sessionId, Some(OrDefault(limit, 100)), Some(OrDefault(offset, 0)));
  }

  /**
   * /event-logging reports limit || 100 in its metadata, but the text it submits
   * always ends in `LIMIT 1000`.
   */
  lemma EventLoggingRequestLimit(sessionId: string, limit: Option<int>, offset: Option<int>)
    ensures ReadBack(EventLoggingRequest(sessionId, limit, offset), EventLoggingHead) == Some((sessionId, EventLoggingTail))
  {
    EventLoggingQueryReadBack(sessionId, Some(OrDefault(limit, 100)), Some(OrDefault(offset, 0)));
  }

  /** The LIMIT of the /all-data text is the limit its metadata reports (limit || 1000). */
  lemma AllDataQueryLimit(limit: Option<int>, offset: Option<int>)
    ensures ParseInt(AllDataQuery(limit, offset)[|AllDataHead|..]) == Some(OrDefault(limit, 1000))
  {
    var n := OrDefault(limit, 1000);
    var rest := "\n        OFFSET " + NumberText(OrDefault(offset, 0)) + "\n      ";
    AllDataQuerySplit(AllDataQuery(limit, offset), n, rest);
    ParseIntOfNumberText(n, rest);
  }

  /**
   * The /session-details text carries its session id between quotes and, after
   * `LIMIT `, the limit (limit || 1000).
   */
  lemma SessionDetailsQueryParameters(sessionId: string, startTime: Option<int>, endTime: Option<int>, limit: Option<int>)
    ensures Includes(SessionDetailsQuery(sessionId, startTime, endTime, limit), "'" + sessionId + "'")
    ensures var front := SessionDetailsSelect + "'" + sessionId + "'" + "\n        " +
        TimeFilter("AND ems_dtc_starttime >= ", startTime) + "\n        " +
        TimeFilter("AND ems_dtc_endtime <= ", endTime) + "\n        LIMIT ";
      ParseInt(SessionDetailsQuery(sessionId, startTime, endTime, limit)[|front|..]) == Some(OrDefault(limit, 1000))
  {
    var q := SessionDetailsQuery(sessionId, startTime, endTime, limit);
    var lower := TimeFilter("AND ems_dtc_starttime >= ", startTime);
    var upper := TimeFilter("AND ems_dtc_endtime <= ", endTime);
    var m := OrDefault(limit, 1000);
    SessionDetailsIdIncluded(q, sessionId, lower, upper, NumberText(m));
    NumberAtEnd(q, SessionDetailsSelect + "'" + sessionId + "'" + "\n        " + lower + "\n        " + upper + "\n        LIMIT ", m);
  }

  /** The quoted session id sits right after the SELECT of a /session-details text. */
  lemma SessionDetailsIdIncluded(q: string, sessionId: string, lower: string, upper: string, count: string)
    requires q == SessionDetailsSelect + "'" + sessionId + "'" + "\n        " + lower + "\n        " + upper +
      "\n        LIMIT " + count + "\n      "
    ensures Includes(q, "'" + sessionId + "'")
  {
    var rest := "\n        " + lower + "\n        " + upper + "\n        LIMIT " + count + "\n      ";
    assert q == SessionDetailsSelect + "'" + sessionId + "'" + rest;
    QuotedIdIncluded(SessionDetailsSelect, sessionId, rest);
  }

  /** The OFFSET of the /all-data text is the offset its metadata reports (offset || 0). */
  lemma AllDataQueryOffset(limit: Option<int>, offset: Option<int>)
    ensures ParseInt(AllDataQuery(limit, offset)[|AllDataHead| + |NumberText(OrDefault(limit, 1000))| + |"\n        OFFSET "|..]) ==
      Some(OrDefault(offset, 0))
  {
    var front := AllDataHead + NumberText(OrDefault(limit, 1000)) + "\n        OFFSET ";
    NumberAtEnd(AllDataQuery(limit, offset), front, OrDefault(offset, 0));
  }

  /** The number that ends a text (before its final line break) reads back with parseInt. */
  lemma NumberAtEnd(q: string, front: string, m: int)
    requires q == front + NumberText(m) + "\n      "
    ensures ParseInt(q[|front|..]) == Some(m)
  {
    assert q[|front|..] == NumberText(m) + "\n      ";
    ParseIntOfNumberText(m, "\n      ");
  }

  lemma AllDataQuerySplit(q: string, n: int, rest: string)
    requires q == AllDataHead + NumberText(n) + rest
    ensures q[|AllDataHead|..] == NumberText(n) + rest
  {
  }

  /**
   * In /session-details a falsy start time, end time or limit is the same as an
   * absent one: a time of 0 adds no filter and a limit of 0 means 1000.
   */
  lemma SessionDetailsFalsyParameters(sessionId: string, startTime: Option<int>, endTime: Option<int>, limit: Option<int>)
    ensures SessionDetailsQuery(sessionId, Some(0), endTime, limit) == SessionDetailsQuery(sessionId, None, endTime, limit)
    ensures SessionDetailsQuery(sessionId, startTime, Some(0), limit) == SessionDetailsQuery(sessionId, startTime, None, limit)
    ensures SessionDetailsQuery(sessionId, startTime, endTime, Some(0)) == SessionDetailsQuery(sessionId, startTime, endTime, Some(1000))
    ensures SessionDetailsQuery(sessionId, startTime, endTime, None) == SessionDetailsQuery(sessionId, startTime, endTime, Some(1000))
  {
  }

  /** A truthy start or end time adds its condition to the /session-details text. */
  lemma SessionDetailsTimeFilters(sessionId: string, startTime: Option<int>, endTime: Option<int>, limit: Option<int>)
    ensures startTime.Some? && startTime.value != 0 ==>
      Includes(SessionDetailsQuery(sessionId, startTime, endTime, limit), "AND ems_dtc_starttime >= " + NumberText(startTime.value))
    ensures endTime.Some? && endTime.value != 0 ==>
      Includes(SessionDetailsQuery(sessionId, startTime, endTime, limit), "AND ems_dtc_endtime <= " + NumberText(endTime.value))
  {
    var a := SessionDetailsSelect + "'" + sessionId + "'" + "\n        ";
    var start := TimeFilter("AND ems_dtc_starttime >= ", startTime);
    var end := TimeFilter("AND ems_dtc_endtime <= ", endTime);
    var limitText := NumberText(OrDefault(limit, 1000));
    IncludesEnd(a, start);
    IncludesExtend(a + start, start, "\n        ");
    IncludesExtend(a + start + "\n        ", start, end);
    IncludesExtend(a + start + "\n        " + end, start, "\n        LIMIT ");
    IncludesExtend(a + start + "\n        " + end + "\n        LIMIT ", start, limitText);
    IncludesExtend(a + start + "\n        " + end + "\n        LIMIT " + limitText, start, "\n      ");
    IncludesEnd(a + start + "\n        ", end);
    IncludesExtend(a + start + "\n        " + end, end, "\n        LIMIT ");
    IncludesExtend(a + start + "\n        " + end + "\n        LIMIT ", end, limitText);
    IncludesExtend(a + start + "\n        " + end + "\n        LIMIT " + limitText, end, "\n      ");
  }
}
