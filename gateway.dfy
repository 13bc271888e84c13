/**
 * The repository-search gateway: one request to the search URL, whose
 * outcome is classified into a one-entry map keyed by `Result`, or into a
 * fatal failure that escapes to the caller.
 */
module Gateway {
  import opened Options
  import opened Decimal
  import opened Json
  import opened SearchUrl
  import opened RepoDeserializer

  /** The key of the map the gateway returns. */
  datatype Result = Ok | Error

  /** The three recoverable failures, each returned as the value of the `Error` entry. */
  datatype GatewayError = RateLimitExceeded | DataLimitReached | NoConnectivity

  /** A value of the returned map: the action's value under `Ok`, a failure under `Error`. */
  datatype Entry<T> = Value(value: T) | Raised(error: GatewayError)

  /** A client-error status (4xx): the only statuses the HTTP client reports as a client-request failure. */
  type ClientErrorStatus = s: int | 400 <= s < 500 witness 400

  /** A server-error status (5xx), which the HTTP client reports as a failure of its own kind. */
  type ServerErrorStatus = s: int | 500 <= s < 600 witness 500

  /** What a request can throw, as far as the gateway distinguishes it. */
  datatype Failure =
    | ClientRequest(status: ClientErrorStatus)   // an HTTP client-error response, with its status code
    | ServerResponse(serverStatus: ServerErrorStatus)// an HTTP server-error response, with its status code
    | UnknownHost                                // the API host could not be resolved
    | MalformedResponse                          // the body could not be read as a list of repositories
    | RuntimeStatus(code: int)                   // the fatal exception raised for an unhandled client-error status
    | OtherFailure(name: string)                 // anything else, named by its exception class

  /** The outcome of running the request: a value, or a thrown failure. */
  datatype Outcome<T> = Returned(value: T) | Threw(failure: Failure)

  /** What `handle` gives back: the map it returns, or the failure that escapes it. */
  datatype Handled<T> = Completed(entries: map<Result, Entry<T>>) | Fatal(failure: Failure)

  /** The tagged-union reading of the map: exactly one of the two arms. */
  datatype GatewayResult<T> = Success(value: T) | Failed(error: GatewayError)

  /** The one-entry map that carries `r`. */
  function AsEntries<T>(r: GatewayResult<T>): (m: map<Result, Entry<T>>)
    ensures |m| == 1
    ensures Ok in m <==> r.Success?
    ensures Error in m <==> r.Failed?
  {
    match r
    case Success(v) => map[Ok := Value(v)]
    case Failed(e) => map[Error := Raised(e)]
  }

  /**
   * Reads a map as a tagged union: defined only when the map has exactly one
   * entry whose key agrees with the kind of its value.
   */
  function ReadEntries<T>(m: map<Result, Entry<T>>): (r: Option<GatewayResult<T>>)
  {
    if m.Keys == {Ok} && m[Ok].Value? then Some(Success(m[Ok].value))
    else if m.Keys == {Error} && m[Error].Raised? then Some(Failed(m[Error].error))
    else None
  }

  /** Writing a result as a map and reading it back gives the result. */
  lemma ReadAsEntries<T>(r: GatewayResult<T>)
    ensures ReadEntries(AsEntries(r)) == Some(r)
  {
  }

  /** A map that reads as a result is exactly that result's map: no other entry rides along. */
  lemma ReadEntriesExact<T>(m: map<Result, Entry<T>>, r: GatewayResult<T>)
    requires ReadEntries(m) == Some(r)
    ensures m == AsEntries(r)
  {
  }

  /** The statuses `handle` turns into a result; every other client-error status is fatal. */
  predicate IsHandledStatus(status: int) {
    status == 403 || status == 422
  }

  /**
   * Classifies the outcome of one action. A value becomes the `Ok` entry;
   * 403 (Forbidden) and 422 (Unprocessable Entity) become `Error` entries, as
   * does an unresolvable host; any other client-error status escapes as a
   * fatal runtime failure carrying the status, and anything else thrown
   * escapes unchanged.
   */
  function Handle<T>(outcome: Outcome<T>): (h: Handled<T>)
    ensures h.Completed? <==> (|| outcome.Returned?
                               || outcome == Threw(UnknownHost)
                               || (outcome.Threw? && outcome.failure.ClientRequest?
                                   && IsHandledStatus(outcome.failure.status)))
    ensures h.Completed? ==> |h.entries| == 1 && !(Ok in h.entries && Error in h.entries)
    ensures h.Completed? ==> ReadEntries(h.entries).Some?
    ensures h.Completed? ==> (Ok in h.entries <==> outcome.Returned?)
    ensures outcome.Returned? ==> h.entries[Ok] == Value(outcome.value)
    ensures h.Fatal? && outcome.failure.ClientRequest? ==> h.failure == RuntimeStatus(outcome.failure.status)
    ensures h.Fatal? && !outcome.failure.ClientRequest? ==> h.failure == outcome.failure
  {
    var r := match outcome
      case Returned(v) => Some(Success(v))
      case Threw(ClientRequest(status)) =>
        if status == 403 then Some(Failed(RateLimitExceeded))
        else if status == 422 then Some(Failed(DataLimitReached))
        else None
      case Threw(UnknownHost) => Some(Failed(NoConnectivity))
      case Threw(_) => None;
    if r.Some? then
      ReadAsEntries(r.value);
      Completed(AsEntries(r.value))
    else if outcome.failure.ClientRequest? then
      Fatal(RuntimeStatus(outcome.failure.status))
    else
      Fatal(outcome.failure)
  }

  /** Each recoverable condition is reported under `Error` with its own failure. */
  lemma HandleRecoverableErrors<T>()
    ensures Handle<T>(Threw(ClientRequest(403))) == Completed(map[Error := Raised(RateLimitExceeded)])
    ensures Handle<T>(Threw(ClientRequest(422))) == Completed(map[Error := Raised(DataLimitReached)])
    ensures Handle<T>(Threw(UnknownHost)) == Completed(map[Error := Raised(NoConnectivity)])
  {
  }

  /** A value is reported under `Ok`, and nothing else is in the map. */
  lemma HandleSuccess<T>(v: T)
    ensures Handle(Returned(v)) == Completed(map[Ok := Value(v)])
  {
  }

  /** An unhandled client-error status, 404 for instance, is never a result map. */
  lemma HandleOtherStatusIsFatal<T>(status: ClientErrorStatus)
    requires !IsHandledStatus(status)
    ensures Handle<T>(Threw(ClientRequest(status))) == Fatal(RuntimeStatus(status))
  {
  }

  /** A server error, 500 for instance, is caught by neither handler: it escapes unchanged. */
  lemma HandleServerErrorEscapes<T>(status: ServerErrorStatus)
    ensures Handle<T>(Threw(ServerResponse(status))) == Fatal(ServerResponse(status))
  {
  }

  /** A response body that carries an `items` array. */
  predicate HasItems(body: Json) {
    body.JObject? && "items" in body.fields && body.fields["items"].JArray?
  }

  /** The `items` array of such a body. */
  function Items(body: Json): seq<Json>
    requires HasItems(body)
  {
    body.fields["items"].elems
  }

  /**
   * The response body read as the search response: its `items` array, each
   * element deserialized. Other keys of the body are not read. A body
   * without an `items` array, or with an item that does not deserialize,
   * throws; a failed request's failure passes through.
   */
  function ReadItems(response: Outcome<Json>): (o: Outcome<seq<Repo>>)
    ensures o.Returned? <==> (&& response.Returned? && HasItems(response.value)
                              && forall i :: 0 <= i < |Items(response.value)| ==> IsRepoItem(Items(response.value)[i]))
    ensures o.Returned? ==> |o.value| == |Items(response.value)|
    ensures o.Returned? ==> forall i :: 0 <= i < |o.value| ==> Deserialize(Items(response.value)[i]) == Some(o.value[i])
    ensures response.Returned? && !o.Returned? ==> o == Threw(MalformedResponse)
    ensures response.Threw? ==> o == Threw(response.failure)
  {
    match response
    case Threw(f) => Threw(f)
    case Returned(body) =>
      if HasItems(body) then
        match DeserializeAll(Items(body))
        case Some(repos) => Returned(repos)
        case None => Threw(MalformedResponse)
      else
        Threw(MalformedResponse)
  }

  /**
   * The gateway call: build the search URL, issue the request through `get`
   * (the HTTP client), read the items and classify the outcome. It returns
   * the `Ok` entry exactly when the answer is a body whose items all
   * deserialize, and then holds one `Repo` per item, in order; any other
   * body escapes as a malformed response; a failed request is classified
   * as `handle` does.
   */
  function GetMostStaredReposSince(formattedDate: string, page: Int32, get: string -> Outcome<Json>)
    : (h: Handled<seq<Repo>>)
    ensures var answer := get(MostStaredReposSinceDateUrl(formattedDate, page));
            && (h.Completed? && Ok in h.entries
                <==> (&& answer.Returned? && HasItems(answer.value)
                      && forall i :: 0 <= i < |Items(answer.value)| ==> IsRepoItem(Items(answer.value)[i])))
            && (h.Completed? && Ok in h.entries ==>
                  && h.entries.Keys == {Ok} && h.entries[Ok].Value?
                  && |h.entries[Ok].value| == |Items(answer.value)|
                  && forall i :: 0 <= i < |Items(answer.value)| ==>
                       Deserialize(Items(answer.value)[i]) == Some(h.entries[Ok].value[i]))
            && (answer.Returned? && !(h.Completed? && Ok in h.entries) ==> h == Fatal(MalformedResponse))
            && (answer.Threw? ==> h == Handle(Threw(answer.failure)))
  {
    var urlString := MostStaredReposSinceDateUrl(formattedDate, page);
    var h := Handle(ReadItems(get(urlString)));
    assert h.Completed? && Ok in h.entries ==> h.entries == map[Ok := Value(h.entries[Ok].value)];
    h
  }

  /** The call depends on the HTTP client only through its answer for the search URL. */
  lemma GatewayAsksOnlyForSearchUrl(date: string, page: Int32, get1: string -> Outcome<Json>, get2: string -> Outcome<Json>)
    requires get1(MostStaredReposSinceDateUrl(date, page)) == get2(MostStaredReposSinceDateUrl(date, page))
    ensures GetMostStaredReposSince(date, page, get1) == GetMostStaredReposSince(date, page, get2)
  {
  }

  /**
   * When every item is a well-formed repository, the call returns one `Ok`
   * entry holding one `Repo` per item, in order, with every field copied,
   * whatever else the body carries.
   */
  lemma GatewaySuccess(date: string, page: Int32, get: string -> Outcome<Json>, body: Json)
    requires get(MostStaredReposSinceDateUrl(date, page)) == Returned(body)
    requires HasItems(body) && forall i :: 0 <= i < |Items(body)| ==> IsRepoItem(Items(body)[i])
    ensures var h := GetMostStaredReposSince(date, page, get);
            && h.Completed? && h.entries.Keys == {Ok} && h.entries[Ok].Value?
            && |h.entries[Ok].value| == |Items(body)|
            && forall i :: 0 <= i < |Items(body)| ==> Deserialize(Items(body)[i]) == Some(h.entries[Ok].value[i])
  {
  }

  /** One bad item fails the whole page: the call escapes with a fatal failure. */
  lemma GatewayMalformedItem(date: string, page: Int32, get: string -> Outcome<Json>, body: Json, k: nat)
    requires get(MostStaredReposSinceDateUrl(date, page)) == Returned(body)
    requires HasItems(body) && k < |Items(body)| && !IsRepoItem(Items(body)[k])
    ensures GetMostStaredReposSince(date, page, get) == Fatal(MalformedResponse)
  {
  }

  /** A body without an `items` array escapes as a fatal failure, not as an empty page. */
  lemma GatewayMissingItems(date: string, page: Int32, get: string -> Outcome<Json>, body: Json)
    requires get(MostStaredReposSinceDateUrl(date, page)) == Returned(body)
    requires !HasItems(body)
    ensures GetMostStaredReposSince(date, page, get) == Fatal(MalformedResponse)
  {
  }

  /**
   * The worked example: a body whose `items` hold one item with a null
   * description gives `Ok` with one matching `Repo`.
   */
  lemma GatewayExample(date: string, page: Int32, get: string -> Outcome<Json>, body: Json)
    requires get(MostStaredReposSinceDateUrl(date, page)) == Returned(body)
    requires body.JObject? && "items" in body.fields && body.fields["items"] == JArray([NullDescriptionItem])
    ensures GetMostStaredReposSince(date, page, get)
         == Completed(map[Ok := Value([Repo("foo", "", "bar", "u", 5)])])
  {
    var h := GetMostStaredReposSince(date, page, get);
    ExampleNullDescription();
    GatewaySuccess(date, page, get, body);
    var repos := h.entries[Ok].value;
    assert repos == [Repo("foo", "", "bar", "u", 5)];
    assert h.entries == map[Ok := Value(repos)];
  }
}
