/** The browser's search client, `CustomerService.searchCustomers` and its
    `handleError`. The network is not modelled: the outcome of each HTTP
    attempt (how long it took and what came back) is an input, one entry per
    attempt the retry policy may make, and the result records every request
    sent, the delay spent between attempts and how the call completed. */
module Client {
  import opened Wrappers
  import opened Text
  import opened Wire

  /** A query must have at least this many UTF-16 code units once trimmed. */
  const MinQueryLength := 2
  /** The page size asked for when the caller gives none. */
  const DefaultLimit := 10
  /** An attempt with no response within this many milliseconds fails. */
  const TimeoutMs := 30000
  /** Failed attempts are re-sent at most this many times. */
  const RetryCount := 2
  /** Milliseconds waited before each re-send. */
  const RetryDelayMs := 1000

  /** The query parameters of `GET /api/customers/search`. */
  datatype Request = Request(query: string, limit: int)

  /** Either the answer is known without the network, or a request goes out. */
  datatype Start = Immediate(response: SearchResponse) | Send(request: Request)

  /** The guard and parameter shaping of `searchCustomers`. A missing query,
      or one shorter than two UTF-16 code units once trimmed, is answered at once
      with an empty page and a zero count; otherwise the request carries the
      trimmed query and the caller's limit, 10 when none is given. */
  function Begin(query: Option<string>, limit: Option<int>): (s: Start)
    ensures s.Immediate? <==> query.None? || Utf16Length(Trim(query.value)) < MinQueryLength
    ensures s.Immediate? ==> s.response == EmptyResponse
    ensures s.Send? ==> && s.request.query == Trim(query.value)
                        && Utf16Length(s.request.query) >= MinQueryLength
                        && s.request.limit == (if limit.Some? then limit.value else DefaultLimit)
  {
    if query.None? || Utf16Length(Trim(query.value)) < MinQueryLength then
      Immediate(EmptyResponse)
    else
      Send(Request(Trim(query.value), if limit.Some? then limit.value else DefaultLimit))
  }

  /** What Angular puts in `HttpErrorResponse.error`: a client-side
      `ErrorEvent` with its message, or anything else (a response body, a
      progress event). */
  datatype ErrorPayload = ErrorEvent(message: string) | OtherPayload

  datatype HttpErrorResponse = HttpErrorResponse(error: ErrorPayload, status: int, message: string)

  /** What reaches the error handler: an HTTP failure, or the `TimeoutError`
      raised when no response came in time (it has no `error` payload and
      no `status`). */
  datatype SearchError = HttpFailure(response: HttpErrorResponse) | TimeoutError

  /** One HTTP attempt as the network played it out. */
  datatype Attempt = Attempt(latencyMs: nat, reply: Result<SearchResponse, HttpErrorResponse>)

  /** The attempt after the timeout operator: a reply that arrives
      `TimeoutMs` or later is replaced by a `TimeoutError`. */
  function Settle(a: Attempt): (r: Result<SearchResponse, SearchError>)
    ensures a.latencyMs >= TimeoutMs ==> r == Err(TimeoutError)
    ensures a.latencyMs < TimeoutMs && a.reply.Ok? ==> r == Ok(a.reply.value)
    ensures a.latencyMs < TimeoutMs && a.reply.Err? ==> r == Err(HttpFailure(a.reply.error))
  {
    if a.latencyMs >= TimeoutMs then Err(TimeoutError)
    else match a.reply
      case Ok(response) => Ok(response)
      case Err(e) => Err(HttpFailure(e))
  }

  // Each long message is the concatenation of its first sentence and the
  // rest: the text is the source's, and the verifier can read the opening
  // characters of a short literal but not of a long one.
  const UnreachableMessage := "Unable to connect to the server." + " Please check if the API is running."
  const BadRequestMessage := "Invalid search request." + " Please check your search terms."
  const NotFoundMessage := "Search service not found."
  const ServerErrorMessage := "Server error occurred." + " Please try again later."
  const NetworkPrefix := "Network error: "
  const OtherStatusPrefix := "Server returned error code "
  /** The message rxjs gives a `TimeoutError`. */
  const TimeoutText := "Timeout has occurred"

  /** `handleError`: a client-side `ErrorEvent` becomes a network-error
      message, the statuses 0, 400, 404 and 500 their fixed messages, and any
      other status a message quoting the status and the error's own message.
      A timeout carries no status, so it takes the last branch with the
      status rendered as `undefined`. */
  function HandleError(e: SearchError): (m: string)
    ensures e.TimeoutError? ==> m == OtherStatusPrefix + "undefined: " + TimeoutText
    ensures e.HttpFailure? && e.response.error.ErrorEvent? ==>
              m == NetworkPrefix + e.response.error.message
    ensures e.HttpFailure? && e.response.error.OtherPayload? ==>
              m == match e.response.status
                   case 0 => UnreachableMessage
                   case 400 => BadRequestMessage
                   case 404 => NotFoundMessage
                   case 500 => ServerErrorMessage
                   case _ => OtherStatusPrefix + IntToString(e.response.status) + ": " + e.response.message
  {
    match e
    case TimeoutError => OtherStatusPrefix + "undefined" + ": " + TimeoutText
    case HttpFailure(r) =>
      if r.error.ErrorEvent? then NetworkPrefix + r.error.message
      else if r.status == 0 then UnreachableMessage
      else if r.status == 400 then BadRequestMessage
      else if r.status == 404 then NotFoundMessage
      else if r.status == 500 then ServerErrorMessage
      else OtherStatusPrefix + IntToString(r.status) + ": " + r.message
  }

  /** The branch of `handleError` an error takes. */
  datatype ErrorKind = Network | Unreachable | BadRequest | NotFound | ServerFault | OtherStatus

  function KindOf(e: SearchError): ErrorKind {
    match e
    case TimeoutError => OtherStatus
    case HttpFailure(r) =>
      if r.error.ErrorEvent? then Network
      else if r.status == 0 then Unreachable
      else if r.status == 400 then BadRequest
      else if r.status == 404 then NotFound
      else if r.status == 500 then ServerFault
      else OtherStatus
  }

  /** Reads the branch back from a message, if it is one `handleError` makes. */
  function KindOfMessage(m: string): Option<ErrorKind> {
    if NetworkPrefix <= m then Some(Network)
    else if OtherStatusPrefix <= m then Some(OtherStatus)
    else if m == UnreachableMessage then Some(Unreachable)
    else if m == BadRequestMessage then Some(BadRequest)
    else if m == NotFoundMessage then Some(NotFound)
    else if m == ServerErrorMessage then Some(ServerFault)
    else None
  }

  /** The messages are unambiguous: the user-visible text alone tells which
      kind of failure occurred. */
  lemma HandleErrorIsUnambiguous(e: SearchError)
    ensures KindOfMessage(HandleError(e)) == Some(KindOf(e))
  {
    var m := HandleError(e);
    match e
    case TimeoutError =>
      assert m[..|OtherStatusPrefix|] == OtherStatusPrefix && m[0] == 'S';
    case HttpFailure(r) =>
      if r.error.ErrorEvent? {
        assert m[..|NetworkPrefix|] == NetworkPrefix;
      } else if r.status == 0 {
        assert m == UnreachableMessage && UnreachableMessage[0] == 'U';
      } else if r.status == 400 {
        assert m == BadRequestMessage && BadRequestMessage[0] == 'I';
      } else if r.status == 404 {
        assert m[0] == 'S' && m[7] == 's';
      } else if r.status == 500 {
        assert m == ServerErrorMessage && ServerErrorMessage[7] == 'e';
      } else {
        assert m[..|OtherStatusPrefix|] == OtherStatusPrefix && m[0] == 'S';
      }
  }

  /** How a search ended: with a response, or with an error message. */
  datatype Completion = Delivered(response: SearchResponse) | Failed(message: string)

  /** A whole search call: its completion, the HTTP requests sent in order and
      the milliseconds spent waiting between attempts. */
  datatype Call = Call(completion: Completion, sent: seq<Request>, delayMs: nat)

  /** `timeout`, then `retry({count, delay})`, then `catchError(handleError)`
      over the attempts. Every failure is retried, whatever its kind, until
      `retriesLeft` re-sends are used up; the first successful attempt's
      response is the result, and when every attempt fails the last error is
      classified. */
  function SendWithRetry(request: Request, attempts: seq<Attempt>, retriesLeft: nat): (c: Call)
    requires |attempts| > retriesLeft
    ensures 1 <= |c.sent| <= retriesLeft + 1
    ensures forall i :: 0 <= i < |c.sent| ==> c.sent[i] == request
    ensures c.delayMs == (|c.sent| - 1) * RetryDelayMs
    ensures forall j :: 0 <= j < |c.sent| - 1 ==> Settle(attempts[j]).Err?
    ensures c.completion.Delivered? ==> Settle(attempts[|c.sent| - 1]) == Ok(c.completion.response)
    ensures c.completion.Failed? ==>
              && |c.sent| == retriesLeft + 1
              && Settle(attempts[retriesLeft]).Err?
              && c.completion.message == HandleError(Settle(attempts[retriesLeft]).error)
    decreases retriesLeft
  {
    match Settle(attempts[0])
    case Ok(response) => Call(Delivered(response), [request], 0)
    case Err(e) =>
      if retriesLeft == 0 then Call(Failed(HandleError(e)), [request], 0)
      else
        var rest := SendWithRetry(request, attempts[1..], retriesLeft - 1);
        Call(rest.completion, [request] + rest.sent, rest.delayMs + RetryDelayMs)
  }

  /** `searchCustomers`, given the outcome of each attempt it may make. A short
      query completes with the empty response and sends nothing. Otherwise
      between one and three identical requests carrying the trimmed query go
      out; the call delivers the first successful attempt's response, and
      fails, with the classified last error, only when all three failed. */
  function SearchCustomers(query: Option<string>, limit: Option<int>, attempts: seq<Attempt>): (c: Call)
    requires |attempts| > RetryCount
    ensures c.sent == [] <==> query.None? || Utf16Length(Trim(query.value)) < MinQueryLength
    ensures c.sent == [] ==> c.completion == Delivered(EmptyResponse) && c.delayMs == 0
    ensures c.sent != [] ==>
              && |c.sent| <= RetryCount + 1
              && (forall i :: 0 <= i < |c.sent| ==>
                    c.sent[i] == Request(Trim(query.value), if limit.Some? then limit.value else DefaultLimit))
              && (forall j :: 0 <= j < |c.sent| - 1 ==> Settle(attempts[j]).Err?)
              && (c.completion.Delivered? ==> Settle(attempts[|c.sent| - 1]) == Ok(c.completion.response))
    ensures c.completion.Failed? <==>
              c.sent != [] && forall j :: 0 <= j <= RetryCount ==> Settle(attempts[j]).Err?
    ensures c.completion.Failed? ==> c.completion.message == HandleError(Settle(attempts[RetryCount]).error)
  {
    match Begin(query, limit)
    case Immediate(response) => Call(Delivered(response), [], 0)
    case Send(request) => SendWithRetry(request, attempts, RetryCount)
  }

  /** A failed search is never reported as an empty success: once a request
      has gone out, the call either delivers what a server actually sent or
      fails with a non-empty message. */
  lemma FailureIsNeverEmptySuccess(query: Option<string>, limit: Option<int>, attempts: seq<Attempt>)
    requires |attempts| > RetryCount
    requires SearchCustomers(query, limit, attempts).sent != []
    ensures var c := SearchCustomers(query, limit, attempts);
            || (c.completion.Delivered? && exists j :: 0 <= j <= RetryCount && Settle(attempts[j]) == Ok(c.completion.response))
            || (c.completion.Failed? && |c.completion.message| > 0)
  {
    var c := SearchCustomers(query, limit, attempts);
    if c.completion.Delivered? {
      var j := |c.sent| - 1;
      assert Settle(attempts[j]) == Ok(c.completion.response);
    } else {
      var e := Settle(attempts[RetryCount]).error;
      assert |HandleError(e)| > 0 by {
        if e.HttpFailure? && e.response.error.OtherPayload? {
          assert |UnreachableMessage| > 0 && |BadRequestMessage| > 0;
          assert |NotFoundMessage| > 0 && |ServerErrorMessage| > 0;
        }
      }
    }
  }

  /** The timeout applies to each attempt: two attempts that answer too late
      and a third that answers in time deliver the third answer, after three
      identical requests and two one-second pauses. */
  lemma LateAnswersAreRetried(query: string, response: SearchResponse)
    requires Utf16Length(Trim(query)) >= MinQueryLength
    ensures var attempts := [Attempt(TimeoutMs, Ok(response)), Attempt(TimeoutMs + 1, Ok(response)), Attempt(0, Ok(response))];
            var request := Request(Trim(query), DefaultLimit);
            SearchCustomers(Some(query), None, attempts) == Call(Delivered(response), [request, request, request], 2000)
  {
    var attempts := [Attempt(TimeoutMs, Ok(response)), Attempt(TimeoutMs + 1, Ok(response)), Attempt(0, Ok(response))];
    assert attempts[1..][1..] == [Attempt(0, Ok(response))];
  }

  /** A rejected request is re-sent like any other failure: a 400 followed by
      a success delivers the success. */
  lemma BadRequestIsRetried(query: string, limit: int, rejection: HttpErrorResponse, response: SearchResponse, third: Attempt)
    requires Utf16Length(Trim(query)) >= MinQueryLength && rejection.status == 400
    ensures var attempts := [Attempt(5, Err(rejection)), Attempt(5, Ok(response)), third];
            var request := Request(Trim(query), limit);
            SearchCustomers(Some(query), Some(limit), attempts) == Call(Delivered(response), [request, request], 1000)
  {
    var attempts := [Attempt(5, Err(rejection)), Attempt(5, Ok(response)), third];
    assert attempts[1..][0] == Attempt(5, Ok(response));
  }

  /** Three server errors in a row end the call with the server-error message. */
  lemma ThreeServerErrorsFail(query: string, e: HttpErrorResponse)
    requires Utf16Length(Trim(query)) >= MinQueryLength && e.status == 500 && e.error.OtherPayload?
    ensures var attempts := [Attempt(1, Err(e)), Attempt(1, Err(e)), Attempt(1, Err(e))];
            var c := SearchCustomers(Some(query), None, attempts);
            c.completion == Failed(ServerErrorMessage) && |c.sent| == 3 && c.delayMs == 2000
  {
    var attempts := [Attempt(1, Err(e)), Attempt(1, Err(e)), Attempt(1, Err(e))];
    assert attempts[1..][1..] == [Attempt(1, Err(e))];
  }
}
