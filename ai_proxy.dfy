/** The backend's AI-suggestion endpoint: it reads the user's latest log and
    forwards its three metrics to the ML service, relaying the answer. The
    database read and the HTTP call are inputs: the rows (or the error the query
    threw) and a function from the request body to what the HTTP client returns
    (the reply of a 2xx answer, or the error it threw). */
module AiProxy {
  import opened HealthTypes
  import opened HealthStore
  import opened MlService

  datatype ProxyResponse =
    | Relayed(suggestions: seq<Suggestion>, modelUsed: string, basedOn: BasedOn)
    | NoLog
    | ProxyFailed(error: string)

  const NoLogMessage := "No health log found"
  const MlErrorMessage := "ML service error"
  const InternalErrorMessage := "Internal server error"

  function Status(r: ProxyResponse): int
  {
    match r
    case Relayed(_, _, _) => 200
    case NoLog => 404
    case ProxyFailed(_) => 500
  }

  /** The response, and the body sent to the ML service (`None`: no call was made). */
  datatype ProxyOutcome = ProxyOutcome(sent: Option<Metrics>, response: ProxyResponse)

  /** getAISuggestion. */
  function GetAISuggestion(db: Outcome<seq<Row>>, userId: nat, ml: Metrics -> Outcome<MlReply>): (out: ProxyOutcome)
    // the ML service is called exactly when the user has a log, with that log's metrics
    ensures out.sent.Some? <==> db.Done? && exists x :: x in db.value && x.userId == userId
    ensures out.sent.Some? ==> exists x :: (x in db.value && x.userId == userId && out.sent.value == MetricsOf(x)
      && forall y :: y in db.value && y.userId == userId ==> y.logDate <= x.logDate)
    // no log: 404 without a call
    ensures out.response == NoLog <==> db.Done? && forall x :: x in db.value ==> x.userId != userId
    // a successful reply is relayed field by field
    ensures out.response.Relayed? <==> out.sent.Some? && ml(out.sent.value).Done? && ml(out.sent.value).value.MlSuccess?
    ensures out.response.Relayed? ==>
      var reply := ml(out.sent.value).value;
      out.response == Relayed(reply.suggestions, reply.modelUsed, reply.basedOn)
    // an unsuccessful reply: its error, or the default
    ensures out.sent.Some? && ml(out.sent.value).Done? && ml(out.sent.value).value.MlFailure? ==>
      out.response == ProxyFailed(OrDefault(ml(out.sent.value).value.error, MlErrorMessage))
    // anything thrown: its message, or the default
    ensures db.Thrown? ==> out.response == ProxyFailed(OrDefault(Some(db.message), InternalErrorMessage))
    ensures out.sent.Some? && ml(out.sent.value).Thrown? ==>
      out.response == ProxyFailed(OrDefault(Some(ml(out.sent.value).message), InternalErrorMessage))
  {
    match db
    case Thrown(message) => ProxyOutcome(None, ProxyFailed(OrDefault(Some(message), InternalErrorMessage)))
    case Done(rows) =>
      match Newest(rows, userId)
      case None => ProxyOutcome(None, NoLog)
      case Some(latest) =>
        var body := MetricsOf(latest);
        var response :=
          match ml(body)
          case Thrown(message) => ProxyFailed(OrDefault(Some(message), InternalErrorMessage))
          case Done(MlSuccess(suggestions, basedOn, modelUsed)) => Relayed(suggestions, modelUsed, basedOn)
          case Done(MlFailure(error)) => ProxyFailed(OrDefault(error, MlErrorMessage));
        ProxyOutcome(Some(body), response)
  }

  /** Every outcome has one of the three statuses, and 404 exactly when no call was made on a successful read. */
  lemma StatusCases(db: Outcome<seq<Row>>, userId: nat, ml: Metrics -> Outcome<MlReply>)
    ensures var out := GetAISuggestion(db, userId, ml);
      && Status(out.response) in {200, 404, 500}
      && (Status(out.response) == 404 <==> db.Done? && out.sent.None?)
  {
  }

  // ---------------------------------------------------------------------
  // The HTTP client
  // ---------------------------------------------------------------------

  function Digit(d: int): (c: char)
    requires 0 <= d < 10
    ensures '0' <= c <= '9' && c as int - '0' as int == d
  {
    "0123456789"[d]
  }

  /** The three digits of an HTTP status code. */
  function StatusText(status: int): (t: string)
    requires 100 <= status < 1000
    ensures |t| == 3 && forall i :: 0 <= i < 3 ==> '0' <= t[i] <= '9'
    ensures (t[0] as int - '0' as int) * 100 + (t[1] as int - '0' as int) * 10 + (t[2] as int - '0' as int) == status
  {
    var rest := status % 100;
    [Digit(status / 100), Digit(rest / 10), Digit(rest % 10)]
  }

  /** The HTTP client's answer to a reply with the given status: the reply for
      a 2xx status, and otherwise a thrown error, whose message names the status. */
  function Post(status: int, reply: MlReply): (r: Outcome<MlReply>)
    requires 100 <= status < 1000
    ensures r.Done? <==> 200 <= status < 300
    ensures r.Done? ==> r.value == reply
  {
    if 200 <= status < 300 then Done(reply)
    else Thrown("Request failed with status code " + StatusText(status))
  }

  /** A 400 of the ML service (no model trained, a field missing) does not reach
      the relay of `response.data.error`: the client throws first, so the
      backend answers 500 with the client's message. */
  lemma MlRejectionBecomesClientError(rows: seq<Row>, userId: nat, reply: MlReply)
    requires exists x :: x in rows && x.userId == userId
    ensures GetAISuggestion(Done(rows), userId, _ => Post(400, reply)).response
      == ProxyFailed("Request failed with status code 400")
  {
    assert StatusText(400) == "400";
  }
}
