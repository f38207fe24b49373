/**
 * QueryController: each query method fills a SQL template literal with its
 * arguments and hands the text to AthenaService.executeQuery.
 *
 * The session id goes in verbatim between single quotes; numbers go in as their
 * decimal text. Parameters with a default take it when they are undefined (None).
 */
module QueryController {
  import opened Wrappers
  import opened JsText
  import opened AthenaService

  const SessionDataHead: string := "SELECT * FROM \"silver\".\"ems_liveparam\" WHERE session_id = "
  const AllSessionIdsText: string := "SELECT session_id FROM \"raw\".\"vehicleinformation\" ORDER BY load_ts desc "
  const VehicleInformationHead: string := "SELECT * FROM \"raw\".\"vehicleinformation\" WHERE session_id = "
  const VehicleInformationTail: string := " ORDER BY load_ts desc LIMIT 1000"
  const ScreenNavigationHead: string := "SELECT * FROM \"raw\".\"screennavigation\" WHERE session_id = "
  const SessionEmsDtcHead: string := "SELECT * FROM \"silver\".\"emsdtc\" WHERE session_id = "
  const EventLoggingHead: string := "SELECT * FROM \"raw\".\"eventlogging\" WHERE session_id = "
  const EventLoggingTail: string := " ORDER BY tx_timestamp ASC LIMIT 1000 ;"

  /** ` LIMIT ${limit}` followed by the statement's end (`;` or ` ;`). */
  function LimitTail(limit: int, end: string): string {
    " LIMIT " + NumberText(limit) + end
  }

  /** getSessionData(sessionId, limit = 0). */
  function SessionDataQuery(sessionId: string, limit: Option<int>): string {
    SessionDataHead + "'" + sessionId + "'" + LimitTail(limit.GetOr(0), ";")
  }

  /** getAllSessionIds(): one fixed text, with its trailing space. */
  function AllSessionIdsQuery(): string {
    AllSessionIdsText
  }

  /** getVehicleInformation(session_id). */
  function VehicleInformationQuery(sessionId: string): string {
    VehicleInformationHead + "'" + sessionId + "'" + VehicleInformationTail
  }

  /** getScreenNavigationData(sessionId, limit = 1000, offset = 0): the offset is not used. */
  function ScreenNavigationQuery(sessionId: string, limit: Option<int>, offset: Option<int>): string {
    ScreenNavigationHead + "'" + sessionId + "'" + LimitTail(limit.GetOr(1000), " ;")
  }

  /** getSessionEmsDtcData(sessionId, limit = 1000, offset = 0): the offset is not used. */
  function SessionEmsDtcQuery(sessionId: string, limit: Option<int>, offset: Option<int>): string {
    SessionEmsDtcHead + "'" + sessionId + "'" + LimitTail(limit.GetOr(1000), " ;")
  }

  /** getEventLoggingData(sessionId, limit = 1000, offset = 0): neither limit nor offset is used. */
  function EventLoggingQuery(sessionId: string, limit: Option<int>, offset: Option<int>): string {
    EventLoggingHead + "'" + sessionId + "'" + EventLoggingTail
  }

  /** runQuery(query): executeQuery on the caller's text, which is submitted unchanged. */
  function RunQuery(query: string, config: AthenaConfig, backend: Backend): (run: Run)
    ensures run.trace != [] && run.trace[0].StartQueryExecution? && run.trace[0].queryString == query
  {
    SubmitsOnceFirst(query, config, backend);
    Execute(query, config, backend)
  }

  // ---------------------------------------------------------------------------
  // Reading the parameters back out of a query text.

  predicate StartsWith(s: string, prefix: string) {
    |prefix| <= |s| && s[..|prefix|] == prefix
  }

  /** `s` split around its last occurrence of `c`; None when `c` does not occur. */
  function SplitAtLast(s: string, c: char): (r: Option<(string, string)>)
    ensures r.Some? ==> s == r.value.0 + [c] + r.value.1 && c !in r.value.1
    ensures r.None? ==> c !in s
  {
    if s == [] then None
    else if s[|s| - 1] == c then Some((s[..|s| - 1], []))
    else
      var r := SplitAtLast(s[..|s| - 1], c);
      if r.None? then None else Some((r.value.0, r.value.1 + [s[|s| - 1]]))
  }

  /**
   * The session id of a query that starts with `head` and a single quote: everything
   * up to the last single quote, together with the text after that quote.
   */
  function ReadBack(query: string, head: string): Option<(string, string)> {
    if StartsWith(query, head + "'") then SplitAtLast(query[|head| + 1..], '\'') else None
  }

  /** The number a text of the form ` LIMIT <n>...` asks for, read as parseInt would. */
  function LimitIn(tail: string): Option<int> {
    if StartsWith(tail, " LIMIT ") then ParseInt(tail[7..]) else None
  }

  /** The session id and the limit a query text carries, as far as they can be read back. */
  function ReadParams(query: string, head: string): Option<(string, Option<int>)> {
    var r := ReadBack(query, head);
    if r.None? then None else Some((r.value.0, LimitIn(r.value.1)))
  }

  lemma {:induction false} SplitAtLastOf(a: string, c: char, b: string)
    requires c !in b
    ensures SplitAtLast(a + [c] + b, c) == Some((a, b))
  {
    var s := a + [c] + b;
    if b == [] {
      assert s[..|s| - 1] == a;
    } else {
      assert s[..|s| - 1] == a + [c] + b[..|b| - 1];
      assert s[|s| - 1] == b[|b| - 1];
      SplitAtLastOf(a, c, b[..|b| - 1]);
      assert b[..|b| - 1] + [b[|b| - 1]] == b;
    }
  }

  /** A quoted id is recovered whatever it contains, as long as no quote follows it. */
  lemma ReadBackOfQuoted(head: string, id: string, tail: string)
    requires '\'' !in tail
    ensures ReadBack(head + "'" + id + "'" + tail, head) == Some((id, tail))
  {
    var q := head + "'" + id + "'" + tail;
    assert q[..|head| + 1] == head + "'";
    assert q[|head| + 1..] == id + ['\''] + tail;
    SplitAtLastOf(id, '\'', tail);
  }

  lemma LimitTailHasNoQuote(n: int, end: string)
    requires end == ";" || end == " ;"
    ensures '\'' !in LimitTail(n, end)
  {
    var d := Digits(if n < 0 then -n else n);
    forall i | 0 <= i < |d| ensures d[i] != '\'' {
      assert IsDigitIn(d[i], 10);
    }
  }

  /** The limit text of a query reads back as the limit that was inserted, and holds no quote. */
  lemma LimitInOf(n: int, end: string, tail: string)
    requires end == ";" || end == " ;"
    requires tail == LimitTail(n, end)
    ensures LimitIn(tail) == Some(n)
  {
    assert tail[..7] == " LIMIT ";
    NumberAfterLimit(n, end, tail, tail[7..]);
  }

  lemma NumberAfterLimit(n: int, end: string, tail: string, number: string)
    requires end == ";" || end == " ;"
    requires tail == LimitTail(n, end) && number == tail[7..]
    ensures ParseInt(number) == Some(n)
  {
    assert number == NumberText(n) + end;
    ParseIntOfNumberText(n, end);
  }

  lemma LimitedReadBack(head: string, id: string, n: int, end: string)
    requires end == ";" || end == " ;"
    ensures ReadParams(head + "'" + id + "'" + LimitTail(n, end), head) == Some((id, Some(n)))
  {
    LimitTailHasNoQuote(n, end);
    ReadBackOfQuoted(head, id, LimitTail(n, end));
    LimitInOf(n, end, LimitTail(n, end));
  }

  // ---------------------------------------------------------------------------
  // What each query text carries.

  /**
   * getSessionData's text determines its arguments: the session id, whatever it
   * contains, and the limit (0 when undefined) both read back from it.
   */
  lemma SessionDataQueryReadBack(sessionId: string, limit: Option<int>)
    ensures ReadParams(SessionDataQuery(sessionId, limit), SessionDataHead) == Some((sessionId, Some(limit.GetOr(0))))
  {
    LimitedReadBack(SessionDataHead, sessionId, limit.GetOr(0), ";");
  }

  /** Two getSessionData calls build the same text only for the same id and effective limit. */
  lemma SessionDataQueryInjective(a: string, limitA: Option<int>, b: string, limitB: Option<int>)
    requires SessionDataQuery(a, limitA) == SessionDataQuery(b, limitB)
    ensures a == b && limitA.GetOr(0) == limitB.GetOr(0)
  {
    SessionDataQueryReadBack(a, limitA);
    SessionDataQueryReadBack(b, limitB);
  }

  /** getScreenNavigationData's text carries the session id and the limit (1000 when undefined), and nothing of the offset. */
  lemma ScreenNavigationQueryReadBack(sessionId: string, limit: Option<int>, offset: Option<int>)
    ensures ReadParams(ScreenNavigationQuery(sessionId, limit, offset), ScreenNavigationHead) ==
      Some((sessionId, Some(limit.GetOr(1000))))
  {
    LimitedReadBack(ScreenNavigationHead, sessionId, limit.GetOr(1000), " ;");
  }

  /** getSessionEmsDtcData's text carries the session id and the limit (1000 when undefined), and nothing of the offset. */
  lemma SessionEmsDtcQueryReadBack(sessionId: string, limit: Option<int>, offset: Option<int>)
    ensures ReadParams(SessionEmsDtcQuery(sessionId, limit, offset), SessionEmsDtcHead) ==
      Some((sessionId, Some(limit.GetOr(1000))))
  {
    LimitedReadBack(SessionEmsDtcHead, sessionId, limit.GetOr(1000), " ;");
  }

  /** The offset of getScreenNavigationData and getSessionEmsDtcData never reaches the text. */
  lemma OffsetIgnored(sessionId: string, limit: Option<int>, offset1: Option<int>, offset2: Option<int>)
    ensures ScreenNavigationQuery(sessionId, limit, offset1) == ScreenNavigationQuery(sessionId, limit, offset2)
    ensures SessionEmsDtcQuery(sessionId, limit, offset1) == SessionEmsDtcQuery(sessionId, limit, offset2)
  {
  }

  /**
   * getEventLoggingData's text is the session id followed by one fixed tail: ordered
   * by tx_timestamp ascending and limited to 1000 whatever limit and offset were given.
   */
  lemma EventLoggingQueryReadBack(sessionId: string, limit: Option<int>, offset: Option<int>)
    ensures ReadBack(EventLoggingQuery(sessionId, limit, offset), EventLoggingHead) == Some((sessionId, EventLoggingTail))
  {
    ReadBackOfQuoted(EventLoggingHead, sessionId, EventLoggingTail);
  }

  /** getVehicleInformation's text is the session id followed by one fixed tail. */
  lemma VehicleInformationQueryReadBack(sessionId: string)
    ensures ReadBack(VehicleInformationQuery(sessionId), VehicleInformationHead) == Some((sessionId, VehicleInformationTail))
  {
    ReadBackOfQuoted(VehicleInformationHead, sessionId, VehicleInformationTail);
  }

  lemma {:induction false} IncludesMiddle(a: string, b: string, c: string)
    ensures Includes(a + b + c, b)
  {
    if a == [] {
      assert (a + b + c)[..|b|] == b;
    } else {
      assert (a + b + c)[1..] == a[1..] + b + c;
      IncludesMiddle(a[1..], b, c);
    }
  }

  lemma IncludesEnd(a: string, b: string)
    ensures Includes(a + b, b)
  {
    IncludesMiddle(a, b, []);
    assert a + b + [] == a + b;
  }

  lemma {:induction false} IncludesExtend(s: string, part: string, more: string)
    requires Includes(s, part)
    ensures Includes(s + more, part)
  {
    assert (s + more)[..|part|] == s[..|part|];
    if s[..|part|] != part {
      assert (s + more)[1..] == s[1..] + more;
      IncludesExtend(s[1..], part, more);
    }
  }

  /** A text built as `head'id'tail` includes the id between its two quotes. */
  lemma QuotedIdIncluded(head: string, id: string, tail: string)
    ensures Includes(head + "'" + id + "'" + tail, "'" + id + "'")
  {
    assert head + "'" + id + "'" + tail == head + ("'" + id + "'") + tail;
    IncludesMiddle(head, "'" + id + "'", tail);
  }

  /**
   * The session id is inserted verbatim between single quotes, with no escaping,
   * in every query that takes one.
   */
  lemma SessionIdVerbatim(sessionId: string, limit: Option<int>, offset: Option<int>)
    ensures Includes(SessionDataQuery(sessionId, limit), "'" + sessionId + "'")
    ensures Includes(VehicleInformationQuery(sessionId), "'" + sessionId + "'")
    ensures Includes(ScreenNavigationQuery(sessionId, limit, offset), "'" + sessionId + "'")
    ensures Includes(SessionEmsDtcQuery(sessionId, limit, offset), "'" + sessionId + "'")
    ensures Includes(EventLoggingQuery(sessionId, limit, offset), "'" + sessionId + "'")
  {
    QuotedIdIncluded(SessionDataHead, sessionId, LimitTail(limit.GetOr(0), ";"));
    QuotedIdIncluded(VehicleInformationHead, sessionId, VehicleInformationTail);
    QuotedIdIncluded(ScreenNavigationHead, sessionId, LimitTail(limit.GetOr(1000), " ;"));
    QuotedIdIncluded(SessionEmsDtcHead, sessionId, LimitTail(limit.GetOr(1000), " ;"));
    QuotedIdIncluded(EventLoggingHead, sessionId, EventLoggingTail);
  }

  /** A quote in the id ends the string literal early: the id's text becomes part of the SQL. */
  lemma QuoteInIdIsNotEscaped()
    ensures SessionDataQuery("x' OR '1'='1", Some(5)) ==
      "SELECT * FROM \"silver\".\"ems_liveparam\" WHERE session_id = 'x' OR '1'='1' LIMIT 5;"
  {
    assert NumberText(5) == "5";
  }
}
