/**
  The API layer (client/src/api/apiService.ts): the response interceptor's
  error normalisation into `ApiError`, the `retryRequest` wrapper with its
  capped exponential backoff, and the requests the user and role services
  send.

  The network is an oracle: the request function's successive outcomes are
  given as a sequence, and instead of sleeping the retry loop reports the
  delays it would have waited.
*/
module ApiService {
  import opened Types
  import Text
  import Uri

  // ----- error normalisation (the response interceptor) -----

  /** The parsed body of an error response: its `message` field, and the rest kept opaque. */
  datatype ResponseBody = ResponseBody(message: Option<string>, rest: string)

  datatype HttpResponse = HttpResponse(status: int, data: Option<ResponseBody>)

  /** A failed axios request: the transport's message, and the response when one arrived. */
  datatype AxiosFailure = AxiosFailure(message: string, response: Option<HttpResponse>)

  /** The uniform error every failed request is turned into. */
  datatype ApiError = ApiError(message: string, status: Option<int>, data: Option<ResponseBody>)

  const UnknownErrorMessage := "Unknown error occurred"

  function ResponseData(e: AxiosFailure): Option<ResponseBody>
  {
    if e.response.Some? then e.response.value.data else None
  }

  /** What the interceptor rejects with when a request fails. */
  function NormaliseError(e: AxiosFailure): (r: ApiError)
    ensures r.message != ""
    ensures ResponseData(e).Some? && StringTruthy(ResponseData(e).value.message) ==>
              r.message == ResponseData(e).value.message.value
    ensures !(ResponseData(e).Some? && StringTruthy(ResponseData(e).value.message)) && e.message != "" ==>
              r.message == e.message
    ensures !(ResponseData(e).Some? && StringTruthy(ResponseData(e).value.message)) && e.message == "" ==>
              r.message == UnknownErrorMessage
    ensures r.status == (if e.response.Some? then Some(e.response.value.status) else None)
    ensures r.data == ResponseData(e)
  {
    var data := ResponseData(e);
    var bodyMessage := if data.Some? then data.value.message else None;
    var message := OrElse(bodyMessage, OrElse(Some(e.message), UnknownErrorMessage));
    var status := if e.response.Some? then Some(e.response.value.status) else None;
    ApiError(message, status, data)
  }

  // ----- retryRequest -----

  /**
    What the retry loop sees of a thrown error: whether `axios.isAxiosError`
    holds of it, the HTTP status it carries, and its message.
  */
  datatype RequestError = RequestError(isAxiosError: bool, status: Option<int>, message: string)

  /** The outcome of one call of the request function. */
  datatype Attempt<T> = Resolved(value: T) | Rejected(error: RequestError)

  /**
    How `retryRequest` settles: with a value, or by throwing `lastError`,
    which is `null` (None) when the loop never ran (a negative maxRetries).
  */
  datatype Settlement<T> = Returned(value: T) | Threw(error: Option<RequestError>)

  /** The settlement, how many times the request function was called, and the delays waited. */
  datatype RetryTrace<T> = RetryTrace(settlement: Settlement<T>, calls: nat, delays: seq<nat>)

  /** The errors `ApiError` instances become when they reach the retry loop: not axios errors. */
  function FromApiError(e: ApiError): (r: RequestError)
    ensures !r.isAxiosError && r.status == e.status && r.message == e.message
  {
    RequestError(false, e.status, e.message)
  }

  /** The rule that ends retrying early: an axios error with a truthy 4xx status other than 429. */
  predicate SkipsRetry(e: RequestError)
  {
    e.isAxiosError && NumberTruthy(e.status) && 400 <= e.status.value < 500 && e.status.value != 429
  }

  function Pow2(k: nat): (p: nat)
    ensures p >= 1
  {
    if k == 0 then 1 else 2 * Pow2(k - 1)
  }

  /** The wait before retrying after the failed attempt `attempt` (0-based): `min(1000 * 2 ** attempt, 5000)` ms. */
  function Backoff(attempt: nat): nat
  {
    if 1000 * Pow2(attempt) < 5000 then 1000 * Pow2(attempt) else 5000
  }

  /** The delays after attempts 0 .. n-1. */
  function Backoffs(n: nat): (ds: seq<nat>)
    ensures |ds| == n
    ensures forall k :: 0 <= k < n ==> ds[k] == Backoff(k)
  {
    if n == 0 then [] else Backoffs(n - 1) + [Backoff(n - 1)]
  }

  /**
    The loop of `retryRequest` from attempt `attempt` on, given the error of
    the last failed attempt and the delays waited so far.
  */
  function Retry<T>(outcomes: seq<Attempt<T>>, maxRetries: int, attempt: nat,
                    lastError: Option<RequestError>, delays: seq<nat>): RetryTrace<T>
    requires maxRetries < |outcomes|
    decreases |outcomes| - attempt
  {
    if attempt > maxRetries then RetryTrace(Threw(lastError), attempt, delays)
    else match outcomes[attempt]
      case Resolved(v) => RetryTrace(Returned(v), attempt + 1, delays)
      case Rejected(e) =>
        if attempt == maxRetries || SkipsRetry(e) then RetryTrace(Threw(Some(e)), attempt + 1, delays)
        else Retry(outcomes, maxRetries, attempt + 1, Some(e), delays + [Backoff(attempt)])
  }

  /** `retryRequest(requestFn, maxRetries)` as a whole. */
  function RetrySpec<T>(outcomes: seq<Attempt<T>>, maxRetries: int): RetryTrace<T>
    requires maxRetries < |outcomes|
  {
    Retry(outcomes, maxRetries, 0, None, [])
  }

  /**
    `retryRequest`: call the request function until it resolves, the attempt
    with index `maxRetries` has failed, or an error forbids retrying; wait the
    backoff between failed attempts. `outcomes[k]` is what call k yields.
  */
  method RetryRequest<T>(outcomes: seq<Attempt<T>>, maxRetries: int := 2) returns (t: RetryTrace<T>)
    requires maxRetries < |outcomes|
    ensures t == RetrySpec(outcomes, maxRetries)
  {
    var lastError: Option<RequestError> := None;
    var calls: nat := 0;
    var delays: seq<nat> := [];
    var attempt: nat := 0;
    while attempt <= maxRetries
      invariant calls == attempt
      invariant attempt > 0 ==> attempt <= maxRetries + 1
      invariant Retry(outcomes, maxRetries, attempt, lastError, delays) == RetrySpec(outcomes, maxRetries)
      decreases |outcomes| - attempt
    {
      calls := calls + 1;
      match outcomes[attempt]
      case Resolved(v) =>
        return RetryTrace(Returned(v), calls, delays);
      case Rejected(e) =>
        lastError := Some(e);
        // the last attempt: do not wait, throw
        if attempt == maxRetries {
          break;
        }
        // a client error other than 429 is not retried
        if SkipsRetry(e) {
          break;
        }
        delays := delays + [Backoff(attempt)];
      attempt := attempt + 1;
    }
    t := RetryTrace(Threw(lastError), calls, delays);
  }

  /** The shape of every run of the loop, from any attempt reached by retrying. */
  lemma {:induction false} RetryShape<T>(outcomes: seq<Attempt<T>>, maxRetries: int, attempt: nat,
                                         lastError: Option<RequestError>, delays: seq<nat>)
    requires maxRetries < |outcomes| && 0 <= maxRetries && attempt <= maxRetries
    requires delays == Backoffs(attempt)
    requires forall k :: 0 <= k < attempt ==> outcomes[k].Rejected? && !SkipsRetry(outcomes[k].error)
    ensures var t := Retry(outcomes, maxRetries, attempt, lastError, delays);
      && attempt < t.calls <= maxRetries + 1
      && t.delays == Backoffs(t.calls - 1)
      && (forall k :: 0 <= k < t.calls - 1 ==> outcomes[k].Rejected? && !SkipsRetry(outcomes[k].error))
      && (outcomes[t.calls - 1].Resolved? ==> t.settlement == Returned(outcomes[t.calls - 1].value))
      && (outcomes[t.calls - 1].Rejected? ==>
            t.settlement == Threw(Some(outcomes[t.calls - 1].error)) &&
            (t.calls - 1 == maxRetries || SkipsRetry(outcomes[t.calls - 1].error)))
    decreases maxRetries - attempt
  {
    match outcomes[attempt]
    case Resolved(v) =>
    case Rejected(e) =>
      if attempt != maxRetries && !SkipsRetry(e) {
        assert delays + [Backoff(attempt)] == Backoffs(attempt + 1);
        assert forall k :: 0 <= k < attempt + 1 ==> outcomes[k].Rejected? && !SkipsRetry(outcomes[k].error);
        assert Retry(outcomes, maxRetries, attempt, lastError, delays) ==
          Retry(outcomes, maxRetries, attempt + 1, Some(e), delays + [Backoff(attempt)]);
        RetryShape(outcomes, maxRetries, attempt + 1, Some(e), delays + [Backoff(attempt)]);
      }
  }

  /**
    What `retryRequest` does, exactly: the calls made are the retryable
    failures followed by one final call; the final call's value is returned,
    or its error is thrown when it was the attempt with index maxRetries or
    may not be retried; the delays are the backoffs of the retried attempts.
    With a negative maxRetries nothing is called and `null` is thrown.
  */
  lemma RetryCharacterised<T>(outcomes: seq<Attempt<T>>, maxRetries: int)
    requires maxRetries < |outcomes|
    ensures var t := RetrySpec(outcomes, maxRetries);
      && (maxRetries < 0 ==> t == RetryTrace(Threw(None), 0, []))
      && (maxRetries >= 0 ==>
           && 1 <= t.calls <= maxRetries + 1
           && t.delays == Backoffs(t.calls - 1)
           && (forall k :: 0 <= k < t.calls - 1 ==> outcomes[k].Rejected? && !SkipsRetry(outcomes[k].error))
           && (outcomes[t.calls - 1].Resolved? ==> t.settlement == Returned(outcomes[t.calls - 1].value))
           && (outcomes[t.calls - 1].Rejected? ==>
                 t.settlement == Threw(Some(outcomes[t.calls - 1].error)) &&
                 (t.calls - 1 == maxRetries || SkipsRetry(outcomes[t.calls - 1].error))))
  {
    if maxRetries >= 0 {
      RetryShape(outcomes, maxRetries, 0, None, []);
    }
  }

  /** With the default maxRetries of 2 the request function is called at most three times. */
  lemma DefaultRetryCallsAtMostThree<T>(outcomes: seq<Attempt<T>>)
    requires 2 < |outcomes|
    ensures 1 <= RetrySpec(outcomes, 2).calls <= 3
  {
    RetryCharacterised(outcomes, 2);
  }

  /**
    The first resolved call's value is returned and nothing more is called,
    provided every earlier call failed with a retryable error.
  */
  lemma FirstSuccessReturned<T>(outcomes: seq<Attempt<T>>, maxRetries: int, i: nat)
    requires maxRetries < |outcomes| && i <= maxRetries
    requires outcomes[i].Resolved?
    requires forall k :: 0 <= k < i ==> outcomes[k].Rejected? && !SkipsRetry(outcomes[k].error)
    ensures RetrySpec(outcomes, maxRetries) == RetryTrace(Returned(outcomes[i].value), i + 1, Backoffs(i))
  {
    RetryCharacterised(outcomes, maxRetries);
  }

  /** An axios 4xx error other than 429 on the first call ends the loop at once, without waiting. */
  lemma ClientErrorNotRetried<T>(outcomes: seq<Attempt<T>>, maxRetries: int)
    requires 0 <= maxRetries < |outcomes|
    requires outcomes[0].Rejected? && SkipsRetry(outcomes[0].error)
    ensures RetrySpec(outcomes, maxRetries) == RetryTrace(Threw(Some(outcomes[0].error)), 1, [])
  {
  }

  /**
    When every allowed call fails with a retryable error, maxRetries + 1 calls
    are made, the last error is thrown without a final wait, and maxRetries
    backoffs are waited.
  */
  lemma RetryableFailuresExhaust<T>(outcomes: seq<Attempt<T>>, maxRetries: int)
    requires 0 <= maxRetries < |outcomes|
    requires forall k :: 0 <= k <= maxRetries ==> outcomes[k].Rejected? && !SkipsRetry(outcomes[k].error)
    ensures RetrySpec(outcomes, maxRetries) ==
      RetryTrace(Threw(Some(outcomes[maxRetries].error)), maxRetries + 1, Backoffs(maxRetries))
  {
    RetryCharacterised(outcomes, maxRetries);
  }

  /** 429, a 5xx status, status 0 and a missing status never end the loop early, nor does a non-axios error. */
  lemma RetryableStatuses(e: RequestError)
    ensures e.status == Some(429) ==> !SkipsRetry(e)
    ensures e.status.Some? && 500 <= e.status.value < 600 ==> !SkipsRetry(e)
    ensures e.status == Some(0) || e.status.None? ==> !SkipsRetry(e)
    ensures !e.isAxiosError ==> !SkipsRetry(e)
    ensures e.isAxiosError && e.status.Some? && 400 <= e.status.value < 500 && e.status.value != 429 ==> SkipsRetry(e)
  {
  }

  /**
    The interceptor turns every failure into an `ApiError`, which is not an
    axios error; so a request through the services that keeps failing with a
    4xx response, 404 say, is still called maxRetries + 1 times.
  */
  lemma InterceptedClientErrorsRetried<T>(outcomes: seq<Attempt<T>>, maxRetries: int, failures: seq<AxiosFailure>)
    requires 0 <= maxRetries < |outcomes| && |failures| == |outcomes|
    requires forall k :: 0 <= k <= maxRetries ==> outcomes[k] == Rejected(FromApiError(NormaliseError(failures[k])))
    ensures RetrySpec(outcomes, maxRetries).calls == maxRetries + 1
  {
    RetryableFailuresExhaust(outcomes, maxRetries);
  }

  lemma {:induction false} Pow2AtLeast8(k: nat)
    requires k >= 3
    ensures Pow2(k) >= 8
    decreases k
  {
    if k > 3 {
      Pow2AtLeast8(k - 1);
    }
  }

  /** The backoff schedule: 1000, 2000, 4000, then 5000 ms for every later attempt; never above 5000. */
  lemma BackoffSchedule(k: nat)
    ensures 1000 <= Backoff(k) <= 5000
    ensures k == 0 ==> Backoff(k) == 1000
    ensures k == 1 ==> Backoff(k) == 2000
    ensures k == 2 ==> Backoff(k) == 4000
    ensures k >= 3 ==> Backoff(k) == 5000
  {
    if k >= 3 {
      Pow2AtLeast8(k);
    } else if k == 2 {
      assert Pow2(2) == 4 by { assert Pow2(1) == 2; }
    } else if k == 1 {
      assert Pow2(1) == 2;
    }
  }

  // ----- the services' requests -----

  datatype Resource = Users | Roles

  function CollectionPath(r: Resource): (p: string)
    ensures |p| > 1 && p[0] == '/'
    ensures forall i :: 0 <= i < |p| ==> p[i] != '?'
  {
    match r
    case Users => "/users"
    case Roles => "/roles"
  }

  /** The search parameter: present only for a non-empty term, percent-encoded. */
  function SearchParam(search: Option<string>): string
  {
    if StringTruthy(search) then "&search=" + Uri.EncodeURIComponent(search.value) else ""
  }

  /**
    The URL of `getUsers(search, page)` / `getRoles(search, page)`: the page
    always, and the encoded search term only when it is a non-empty string.
  */
  function ListUrl(r: Resource, search: Option<string>, page: int := 1): string
  {
    CollectionPath(r) + "?page=" + Text.IntToDecimal(page) + SearchParam(search)
  }

  /** What a server reads from a list URL. */
  datatype ListQuery = ListQuery(resource: Resource, page: int, search: string)

  function ResourceAt(path: string): Option<Resource>
  {
    if path == "/users" then Some(Users) else if path == "/roles" then Some(Roles) else None
  }

  /** Reads `page=<numeral>[&search=<encoded>]` back into the page and the decoded search term. */
  function ParseListQuery(query: string): Option<(int, string)>
  {
    match Text.StripPrefix("page=", query)
    case None => None
    case Some(params) =>
      var (pageText, tail) := Text.SplitAt(params, '&');
      match Text.ParseDecimal(pageText)
      case None => None
      case Some(page) =>
        if tail == "" then Some((page, ""))
        else match Text.StripPrefix("&search=", tail)
          case None => None
          case Some(encoded) =>
            match Uri.DecodeURIComponent(encoded)
            case Some(term) => Some((page, term))
            case None => None
  }

  /** The partner of ListUrl: splits a list URL back into resource, page and decoded search term. */
  function ParseListUrl(url: string): Option<ListQuery>
  {
    var (path, rest) := Text.SplitAt(url, '?');
    match (ResourceAt(path), Text.StripPrefix("?", rest))
    case (Some(r), Some(query)) =>
      (match ParseListQuery(query)
       case Some((page, term)) => Some(ListQuery(r, page, term))
       case None => None)
    case _ => None
  }

  /** Regrouping of the list URL's pieces, stated over plain strings. */
  lemma ListUrlPieces(path: string, dec: string, param: string)
    ensures path + "?page=" + dec + param == path + ("?" + ("page=" + (dec + param)))
  {
    assert "?page=" == "?" + "page=";
  }

  lemma ListUrlShape(r: Resource, search: Option<string>, page: int)
    ensures ListUrl(r, search, page) ==
      CollectionPath(r) + ("?" + ("page=" + (Text.IntToDecimal(page) + SearchParam(search))))
  {
    ListUrlPieces(CollectionPath(r), Text.IntToDecimal(page), SearchParam(search));
  }

  lemma ParseListQueryOf(page: int, search: Option<string>)
    ensures ParseListQuery("page=" + (Text.IntToDecimal(page) + SearchParam(search))) ==
      Some((page, if StringTruthy(search) then search.value else ""))
  {
    var dec := Text.IntToDecimal(page);
    var param := SearchParam(search);
    Text.StripPrefixOf("page=", dec + param);
    Text.SplitAtOf(dec, param, '&');
    Text.IntToDecimalRoundTrip(page);
    if StringTruthy(search) {
      Text.StripPrefixOf("&search=", Uri.EncodeURIComponent(search.value));
      Uri.EncodeDecodeRoundTrip(search.value);
    }
  }

  lemma ParseListUrlSplit(r: Resource, query: string)
    ensures ParseListUrl(CollectionPath(r) + ("?" + query)) ==
      match ParseListQuery(query)
      case Some((page, term)) => Some(ListQuery(r, page, term))
      case None => None
  {
    Text.SplitAtOf(CollectionPath(r), "?" + query, '?');
    Text.StripPrefixOf("?", query);
  }

  /**
    Round trip: the list URL carries the resource, the page and the search
    term, which is sent exactly when it is non-empty.
  */
  lemma ListUrlRoundTrip(r: Resource, search: Option<string>, page: int)
    ensures ParseListUrl(ListUrl(r, search, page)) ==
      Some(ListQuery(r, page, if StringTruthy(search) then search.value else ""))
  {
    ListUrlShape(r, search, page);
    ParseListUrlSplit(r, "page=" + (Text.IntToDecimal(page) + SearchParam(search)));
    ParseListQueryOf(page, search);
  }

  /** Two list requests with different resources, pages or (non-empty) search terms have different URLs. */
  lemma ListUrlInjective(r1: Resource, s1: Option<string>, p1: int, r2: Resource, s2: Option<string>, p2: int)
    requires ListUrl(r1, s1, p1) == ListUrl(r2, s2, p2)
    ensures r1 == r2 && p1 == p2
    ensures StringTruthy(s1) <==> StringTruthy(s2)
    ensures StringTruthy(s1) ==> s1.value == s2.value
  {
    ListUrlRoundTrip(r1, s1, p1);
    ListUrlRoundTrip(r2, s2, p2);
  }

  /** The fields a request body may set (a `Partial<User>` or `Partial<Role>`). */
  datatype Payload =
    | RoleFields(name: Option<string>, description: Option<string>, isDefault: Option<bool>)
    | UserFields(first: Option<string>, last: Option<string>, roleId: Option<string>, photo: Option<string>)

  /** The service functions, as the calls they are. */
  datatype ServiceCall =
    | List(resource: Resource, search: Option<string>, page: int)
    | Get(resource: Resource, id: string)
    | Create(resource: Resource, body: Payload)
    | Update(resource: Resource, id: string, body: Payload)
    | Delete(resource: Resource, id: string)

  datatype Verb = GET | POST | PATCH | DELETE

  datatype HttpRequest = HttpRequest(verb: Verb, url: string, body: Option<Payload>)

  /** The REST route of each service call; item ids are placed in the path as they are, unencoded. */
  function Route(call: ServiceCall): (req: HttpRequest)
    ensures call.List? ==> req == HttpRequest(GET, ListUrl(call.resource, call.search, call.page), None)
    ensures call.Get? || call.Delete? ==> req.body.None?
    ensures call.Create? || call.Update? ==> req.body == Some(call.body)
    ensures call.Get? || call.Update? || call.Delete? ==> req.url == CollectionPath(call.resource) + "/" + call.id
    ensures call.Create? ==> req.url == CollectionPath(call.resource)
    ensures req.verb == GET <==> call.List? || call.Get?
    ensures req.verb == POST <==> call.Create?
    ensures req.verb == PATCH <==> call.Update?
    ensures req.verb == DELETE <==> call.Delete?
  {
    match call
    case List(r, search, page) => HttpRequest(GET, ListUrl(r, search, page), None)
    case Get(r, id) => HttpRequest(GET, CollectionPath(r) + "/" + id, None)
    case Create(r, body) => HttpRequest(POST, CollectionPath(r), Some(body))
    case Update(r, id, body) => HttpRequest(PATCH, CollectionPath(r) + "/" + id, Some(body))
    case Delete(r, id) => HttpRequest(DELETE, CollectionPath(r) + "/" + id, None)
  }
}
