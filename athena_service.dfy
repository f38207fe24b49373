/**
 * AthenaService.executeQuery: submit a query, poll its status until it leaves
 * RUNNING/QUEUED, then either fail or fetch the result set.
 *
 * The Athena client is replaced by a finite script of its answers. Every call the
 * operation makes is recorded, in order, in a trace of `Call`s.
 */
module AthenaService {
  import opened Wrappers
  import opened ResultSets

  /** A thrown JavaScript error; `message` is absent when the thrown value has none. */
  datatype Error = Error(message: Option<string>)

  const MissingIdMessage: string := "Failed to get QueryExecutionId"
  const QueryFailedMessage: string := "Query execution failed"

  /** The `athena` part of the AWS configuration that goes into the submit call. */
  datatype AthenaConfig = AthenaConfig(outputLocation: string, workGroup: string)

  /** The three commands the operation sends to Athena. */
  datatype Call =
    | StartQueryExecution(queryString: string, outputLocation: string, workGroup: string)
    | GetQueryExecution(id: string)
    | GetQueryResults(id: string)
  {
    function Kind(): CallKind {
      match this
      case StartQueryExecution(_, _, _) => Submit
      case GetQueryExecution(_) => Poll
      case GetQueryResults(_) => Fetch
    }
  }

  datatype CallKind = Submit | Poll | Fetch

  /** How many calls of the given kind a trace holds. */
  function CountOf(trace: seq<Call>, kind: CallKind): (n: nat)
    ensures n <= |trace|
  {
    if trace == [] then 0
    else CountOf(trace[..|trace| - 1], kind) + (if trace[|trace| - 1].Kind() == kind then 1 else 0)
  }

  /** What one call to the client does: resolve with a value or reject with an error. */
  datatype Reply<T> = Answer(value: T) | Raise(error: Error)

  /**
   * A script of the client's answers: to the submit (the `QueryExecutionId`, possibly
   * absent), to the successive status polls (the `Status.State`, possibly absent), and
   * to the fetch (the `ResultSet`, possibly absent).
   */
  datatype Backend = Backend(
    start: Reply<Option<string>>,
    polls: seq<Reply<Option<string>>>,
    results: Reply<Option<ResultSet>>)

  /**
   * How the operation ends: it returns a result set (or undefined), it throws, or the
   * script ran out of poll answers while the query was still in progress, so it is
   * still waiting for the last poll it sent.
   */
  datatype Execution = Returned(resultSet: Option<ResultSet>) | Threw(error: Error) | StillWaiting

  datatype Run = Run(trace: seq<Call>, outcome: Execution)

  /** `State || 'FAILED'`: an absent or empty state counts as FAILED. */
  function StatusOf(state: Option<string>): (status: string)
    ensures status == "FAILED" <==> state == None || state == Some("") || state == Some("FAILED")
    ensures state.Some? && state.value != "" ==> status == state.value
  {
    if state.None? || state.value == "" then "FAILED" else state.value
  }

  /** The loop goes on exactly while the status is RUNNING or QUEUED. */
  predicate InProgress(status: string) {
    status == "RUNNING" || status == "QUEUED"
  }

  /** A poll answer ends the loop when it is an error or a status other than RUNNING/QUEUED. */
  predicate Settles(answer: Reply<Option<string>>) {
    answer.Raise? || !InProgress(StatusOf(answer.value))
  }

  /** The position of the first poll answer that ends the loop (`|polls|` when none does). */
  function FirstSettling(polls: seq<Reply<Option<string>>>): (k: nat)
    ensures k <= |polls|
    ensures forall j :: 0 <= j < k ==> !Settles(polls[j])
    ensures k < |polls| ==> Settles(polls[k])
  {
    if polls == [] || Settles(polls[0]) then 0 else 1 + FirstSettling(polls[1..])
  }

  /** `n` status polls for the execution `id`. */
  function Polls(id: string, n: nat): (calls: seq<Call>)
    ensures |calls| == n
    ensures forall j :: 0 <= j < n ==> calls[j] == GetQueryExecution(id)
  {
    if n == 0 then [] else Polls(id, n - 1) + [GetQueryExecution(id)]
  }

  /** A falsy `QueryExecutionId`: absent or empty. */
  predicate MissingId(id: Option<string>) {
    id.None? || id.value == ""
  }

  /** The run of executeQuery(query) against the scripted backend. */
  function Execute(query: string, config: AthenaConfig, backend: Backend): Run {
    var submit := StartQueryExecution(query, config.outputLocation, config.workGroup);
    if backend.start.Raise? then Run([submit], Threw(backend.start.error))
    else if MissingId(backend.start.value) then Run([submit], Threw(Error(Some(MissingIdMessage))))
    else
      var id := backend.start.value.value;
      var k := FirstSettling(backend.polls);
      var polled := [submit] + Polls(id, k + 1);
      if k == |backend.polls| then Run(polled, StillWaiting)
      else if backend.polls[k].Raise? then Run(polled, Threw(backend.polls[k].error))
      else if StatusOf(backend.polls[k].value) == "FAILED" then Run(polled, Threw(Error(Some(QueryFailedMessage))))
      else
        var fetched := polled + [GetQueryResults(id)];
        if backend.results.Raise? then Run(fetched, Threw(backend.results.error))
        else Run(fetched, Returned(backend.results.value))
  }

  /**
   * executeQuery itself: the submit, the polling loop that reassigns the status from
   * each answer, the FAILED check and the single fetch. Errors of any call end the
   * operation and are passed on unchanged.
   */
  method ExecuteQuery(query: string, config: AthenaConfig, backend: Backend)
    returns (trace: seq<Call>, outcome: Execution)
    ensures Run(trace, outcome) == Execute(query, config, backend)
  {
    trace := [StartQueryExecution(query, config.outputLocation, config.workGroup)];
    if backend.start.Raise? {
      outcome := Threw(backend.start.error);
      return;
    }
    var queryExecutionId := backend.start.value;
    if MissingId(queryExecutionId) {
      outcome := Threw(Error(Some(MissingIdMessage)));
      return;
    }
    var id := queryExecutionId.value;
    ghost var submitted := trace;

    var status := "RUNNING";
    var i := 0;
    while InProgress(status)
      invariant i <= |backend.polls|
      invariant InProgress(status) ==> i <= FirstSettling(backend.polls) && trace == submitted + Polls(id, i)
      invariant !InProgress(status) ==>
        0 < i && i - 1 == FirstSettling(backend.polls) && trace == submitted + Polls(id, i) &&
        backend.polls[i - 1].Answer? && status == StatusOf(backend.polls[i - 1].value)
      decreases |backend.polls| - i
    {
      trace := trace + [GetQueryExecution(id)];
      if i == |backend.polls| {
        outcome := StillWaiting;
        return;
      }
      var answer := backend.polls[i];
      i := i + 1;
      if answer.Raise? {
        outcome := Threw(answer.error);
        return;
      }
      status := StatusOf(answer.value);
    }

    if status == "FAILED" {
      outcome := Threw(Error(Some(QueryFailedMessage)));
      return;
    }

    trace := trace + [GetQueryResults(id)];
    if backend.results.Raise? {
      outcome := Threw(backend.results.error);
      return;
    }
    outcome := Returned(backend.results.value);
  }

  // ---------------------------------------------------------------------------
  // Properties of a run.

  lemma {:induction false} CountOfAppend(a: seq<Call>, b: seq<Call>, kind: CallKind)
    ensures CountOf(a + b, kind) == CountOf(a, kind) + CountOf(b, kind)
  {
    if b != [] {
      assert (a + b)[..|a + b| - 1] == a + b[..|b| - 1];
      assert (a + b)[|a + b| - 1] == b[|b| - 1];
      CountOfAppend(a, b[..|b| - 1], kind);
    } else {
      assert a + b == a;
    }
  }

  lemma {:induction false} CountOfPolls(id: string, n: nat)
    ensures CountOf(Polls(id, n), Poll) == n
    ensures CountOf(Polls(id, n), Fetch) == 0
    ensures CountOf(Polls(id, n), Submit) == 0
  {
    if n > 0 {
      assert Polls(id, n)[..n - 1] == Polls(id, n - 1);
      CountOfPolls(id, n - 1);
    }
  }

  /** Whether the loop stops on an answered status other than FAILED, the case that leads to a fetch. */
  predicate StopsOnFetchableStatus(polls: seq<Reply<Option<string>>>) {
    var k := FirstSettling(polls);
    k < |polls| && polls[k].Answer? && StatusOf(polls[k].value) != "FAILED"
  }

  /** The calls of a run in which the submit returned the id `id`. */
  lemma TraceWithId(query: string, config: AthenaConfig, backend: Backend, id: string)
    requires backend.start == Answer(Some(id)) && id != ""
    ensures Execute(query, config, backend).trace ==
      [StartQueryExecution(query, config.outputLocation, config.workGroup)] +
      Polls(id, FirstSettling(backend.polls) + 1) +
      (if StopsOnFetchableStatus(backend.polls) then [GetQueryResults(id)] else [])
  {
  }

  lemma CountOfOne(c: Call, kind: CallKind)
    ensures CountOf([c], kind) == if c.Kind() == kind then 1 else 0
  {
    assert [c][..0] == [];
  }

  /** How often each kind of call occurs in a submit followed by `polls` and `fetch`. */
  lemma CountOfThree(submit: Call, polls: seq<Call>, fetch: seq<Call>, kind: CallKind)
    ensures CountOf([submit] + polls + fetch, kind) ==
      (if submit.Kind() == kind then 1 else 0) + CountOf(polls, kind) + CountOf(fetch, kind)
  {
    CountOfAppend([submit], polls, kind);
    CountOfAppend([submit] + polls, fetch, kind);
    CountOfOne(submit, kind);
  }

  /** The counts of each kind of call in a submit, `n` polls and possibly a fetch. */
  lemma CountsOfShape(submit: Call, id: string, n: nat, fetched: bool)
    requires submit.Kind() == Submit
    ensures var trace := [submit] + Polls(id, n) + (if fetched then [GetQueryResults(id)] else []);
      CountOf(trace, Submit) == 1 && CountOf(trace, Poll) == n && CountOf(trace, Fetch) == (if fetched then 1 else 0)
  {
    var polls := Polls(id, n);
    var fetch: seq<Call> := if fetched then [GetQueryResults(id)] else [];
    CountOfPolls(id, n);
    CountOfThree(submit, polls, fetch, Submit);
    CountOfThree(submit, polls, fetch, Poll);
    CountOfThree(submit, polls, fetch, Fetch);
    if fetched {
      CountOfOne(GetQueryResults(id), Submit);
      CountOfOne(GetQueryResults(id), Poll);
      CountOfOne(GetQueryResults(id), Fetch);
    }
  }

  /** The counts of each kind of call in a run in which the submit returned the id `id`. */
  lemma CountsWithId(query: string, config: AthenaConfig, backend: Backend, id: string)
    requires backend.start == Answer(Some(id)) && id != ""
    ensures var trace := Execute(query, config, backend).trace;
      CountOf(trace, Submit) == 1 &&
      CountOf(trace, Poll) == FirstSettling(backend.polls) + 1 &&
      CountOf(trace, Fetch) == (if StopsOnFetchableStatus(backend.polls) then 1 else 0)
  {
    TraceWithId(query, config, backend, id);
    CountsOfShape(StartQueryExecution(query, config.outputLocation, config.workGroup), id,
      FirstSettling(backend.polls) + 1, StopsOnFetchableStatus(backend.polls));
  }

  /**
   * Every run begins with exactly one submit carrying the query text unchanged and
   * the configured output location and work group.
   */
  lemma SubmitsOnceFirst(query: string, config: AthenaConfig, backend: Backend)
    ensures var run := Execute(query, config, backend);
      run.trace != [] &&
      run.trace[0] == StartQueryExecution(query, config.outputLocation, config.workGroup) &&
      CountOf(run.trace, Submit) == 1
  {
    if backend.start.Answer? && !MissingId(backend.start.value) {
      CountsWithId(query, config, backend, backend.start.value.value);
    } else {
      assert [StartQueryExecution(query, config.outputLocation, config.workGroup)][..0] == [];
    }
  }

  /** A submit answered without a usable execution id throws at once: no poll and no fetch. */
  lemma MissingIdThrows(query: string, config: AthenaConfig, backend: Backend)
    requires backend.start.Answer? && MissingId(backend.start.value)
    ensures Execute(query, config, backend) ==
      Run([StartQueryExecution(query, config.outputLocation, config.workGroup)], Threw(Error(Some(MissingIdMessage))))
  {
  }

  /**
   * Once an id is known there is at least one poll, and the number of polls is one
   * more than the position of the first answer that is not RUNNING or QUEUED; when no
   * scripted answer settles, the last poll is the one still outstanding.
   */
  lemma PollCount(query: string, config: AthenaConfig, backend: Backend)
    requires backend.start.Answer? && !MissingId(backend.start.value)
    ensures CountOf(Execute(query, config, backend).trace, Poll) == FirstSettling(backend.polls) + 1
    ensures CountOf(Execute(query, config, backend).trace, Poll) >= 1
  {
    CountsWithId(query, config, backend, backend.start.value.value);
  }

  /**
   * Results are fetched at most once, and exactly when an id was obtained and the
   * loop stopped on an answered status other than FAILED; the fetch is the last call.
   */
  lemma FetchRule(query: string, config: AthenaConfig, backend: Backend)
    ensures var run := Execute(query, config, backend);
      var fetches := backend.start.Answer? && !MissingId(backend.start.value) && StopsOnFetchableStatus(backend.polls);
      CountOf(run.trace, Fetch) == (if fetches then 1 else 0) &&
      (fetches ==> run.trace[|run.trace| - 1] == GetQueryResults(backend.start.value.value))
  {
    if backend.start.Answer? && !MissingId(backend.start.value) {
      CountsWithId(query, config, backend, backend.start.value.value);
    } else {
      assert [StartQueryExecution(query, config.outputLocation, config.workGroup)][..0] == [];
    }
  }

  /**
   * Only the FAILED status aborts: when the loop stops on an answer, the operation
   * throws 'Query execution failed' exactly when the state was absent, empty or
   * FAILED, and otherwise (SUCCEEDED, CANCELLED or anything else) returns what the
   * fetch returned.
   */
  lemma OnlyFailedAborts(query: string, config: AthenaConfig, backend: Backend)
    requires backend.start.Answer? && !MissingId(backend.start.value)
    requires backend.results.Answer?
    requires FirstSettling(backend.polls) < |backend.polls|
    requires backend.polls[FirstSettling(backend.polls)].Answer?
    ensures var state := backend.polls[FirstSettling(backend.polls)].value;
      var outcome := Execute(query, config, backend).outcome;
      (outcome == Threw(Error(Some(QueryFailedMessage))) <==> state in {None, Some(""), Some("FAILED")}) &&
      (outcome == Returned(backend.results.value) <==> state !in {None, Some(""), Some("FAILED")})
  {
  }

  /** A cancelled query still has its results fetched and returned. */
  lemma CancelledStillFetches(query: string, config: AthenaConfig, id: string, results: Option<ResultSet>)
    requires id != ""
    ensures Execute(query, config, Backend(Answer(Some(id)), [Answer(Some("CANCELLED"))], Answer(results))) ==
      Run([StartQueryExecution(query, config.outputLocation, config.workGroup),
           GetQueryExecution(id), GetQueryResults(id)], Returned(results))
  {
    var polls: seq<Reply<Option<string>>> := [Answer(Some("CANCELLED"))];
    assert FirstSettling(polls) == 0;
  }

  /** QUEUED, RUNNING, RUNNING, SUCCEEDED: four polls, then one fetch whose result set is returned. */
  lemma QueuedRunningSucceeded(query: string, config: AthenaConfig, id: string, results: Option<ResultSet>)
    requires id != ""
    ensures var polls := [Answer(Some("QUEUED")), Answer(Some("RUNNING")), Answer(Some("RUNNING")), Answer(Some("SUCCEEDED"))];
      Execute(query, config, Backend(Answer(Some(id)), polls, Answer(results))) ==
      Run([StartQueryExecution(query, config.outputLocation, config.workGroup),
           GetQueryExecution(id), GetQueryExecution(id), GetQueryExecution(id), GetQueryExecution(id),
           GetQueryResults(id)], Returned(results))
  {
    var polls: seq<Reply<Option<string>>> :=
      [Answer(Some("QUEUED")), Answer(Some("RUNNING")), Answer(Some("RUNNING")), Answer(Some("SUCCEEDED"))];
    assert polls[1..][1..][1..] == [Answer(Some("SUCCEEDED"))];
    assert FirstSettling(polls) == 3;
  }

  /**
   * An error from any call ends the operation with that same error, and that call is
   * the last one made: nothing is retried.
   */
  lemma ErrorsEndTheRun(query: string, config: AthenaConfig, backend: Backend, e: Error)
    ensures backend.start == Raise(e) ==>
      Execute(query, config, backend) == Run([StartQueryExecution(query, config.outputLocation, config.workGroup)], Threw(e))
    ensures (backend.start.Answer? && !MissingId(backend.start.value) &&
      FirstSettling(backend.polls) < |backend.polls| && backend.polls[FirstSettling(backend.polls)] == Raise(e)) ==>
      var run := Execute(query, config, backend);
      run.outcome == Threw(e) && run.trace[|run.trace| - 1] == GetQueryExecution(backend.start.value.value)
    ensures (backend.start.Answer? && !MissingId(backend.start.value) &&
      StopsOnFetchableStatus(backend.polls) && backend.results == Raise(e)) ==>
      var run := Execute(query, config, backend);
      run.outcome == Threw(e) && run.trace[|run.trace| - 1] == GetQueryResults(backend.start.value.value)
  {
  }

  /**
   * There is no time-out: the operation is still waiting exactly when an id was
   * obtained and every scripted poll answer was RUNNING or QUEUED.
   */
  lemma StillWaitingRule(query: string, config: AthenaConfig, backend: Backend)
    ensures Execute(query, config, backend).outcome == StillWaiting <==>
      backend.start.Answer? && !MissingId(backend.start.value) &&
      forall j :: 0 <= j < |backend.polls| ==> backend.polls[j].Answer? && InProgress(StatusOf(backend.polls[j].value))
  {
    if backend.start.Answer? && !MissingId(backend.start.value) &&
       forall j :: 0 <= j < |backend.polls| ==> backend.polls[j].Answer? && InProgress(StatusOf(backend.polls[j].value))
    {
      assert FirstSettling(backend.polls) == |backend.polls|;
    }
  }

  /** Every poll and the fetch name the execution id the submit returned. */
  lemma SameExecutionId(query: string, config: AthenaConfig, backend: Backend)
    requires backend.start.Answer? && !MissingId(backend.start.value)
    ensures var run := Execute(query, config, backend);
      forall j :: 1 <= j < |run.trace| ==>
        run.trace[j] == GetQueryExecution(backend.start.value.value) ||
        run.trace[j] == GetQueryResults(backend.start.value.value)
  {
  }
}
