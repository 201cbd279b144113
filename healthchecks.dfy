/**
 * internal/healthchecks/client.go: the client that posts start, success and fail signals to a
 * healthchecks.io check. URL parsing, path joining, query encoding, JSON encoding and the HTTP
 * exchange are outside the model: they are the functions of an `HttpOracle`.
 */
module Healthchecks {
  import opened Wrappers
  import opened Strings
  import opened Results
  import opened HealthRetry

  /** A parsed URL: the parts buildURL touches (path and query) and the rest, kept opaque. */
  datatype Url = Url(rest: string, path: string, query: map<string, seq<string>>)

  /** The two request bodies the client sends: a JobsList, or a JobResults value. */
  datatype Body =
    | JobsListBody(jobs: seq<string>)
    | ResultsBody(successJobs: seq<SuccessJob>, failedJobs: seq<FailedJob>)

  /** What one HTTP attempt came to. */
  datatype Response =
    | RequestError(msg: string)              // http.NewRequestWithContext failed
    | TransportError(msg: string)            // http.Client.Do failed
    | HttpResponse(status: int, body: string)

  /**
   * The library functions the client relies on: net/url parsing and rendering, path.Join,
   * json.Marshal, and the server's response to the request of a given attempt (0, 1, 2).
   */
  datatype HttpOracle = HttpOracle(
    parse: string -> Result<Url, string>,
    joinPath: (string, string) -> string,
    render: Url -> string,
    marshal: Body -> Result<string, string>,
    send: (string, string, nat) -> Response)

  datatype Client = Client(baseUrl: string)

  /** NewClient: the base URL is trimmed, and one that is empty after trimming is refused. */
  function NewClient(baseUrl: string): (r: Result<Client, string>)
    ensures r.Failure? <==> forall i :: 0 <= i < |baseUrl| ==> IsSpace(baseUrl[i])
    ensures r.Failure? ==> r.error == "empty base URL"
    ensures r.Success? ==> r.value.baseUrl == TrimSpace(baseUrl) && r.value.baseUrl != ""
  {
    TrimSpaceEmpty(baseUrl);
    var trimmed := TrimSpace(baseUrl);
    if trimmed == "" then Failure("empty base URL") else Result.Success(Client(trimmed))
  }

  /**
   * buildURL, up to rendering the URL as text: an empty endpoint keeps the path, any other is
   * joined to the path stripped of trailing '/'; an empty run id keeps the query, any other
   * sets the single value of "rid" and leaves the other parameters alone.
   */
  function BuildUrl(o: HttpOracle, base: string, endpoint: string, rid: string): (r: Result<Url, string>)
    ensures o.parse(base).Failure? ==> r == Failure(o.parse(base).error)
    ensures o.parse(base).Success? ==> r.Success? && r.value.rest == o.parse(base).value.rest
    ensures o.parse(base).Success? && endpoint == "" ==> r.value.path == o.parse(base).value.path
    ensures o.parse(base).Success? && endpoint != "" ==>
      r.value.path == o.joinPath(TrimRightChar(o.parse(base).value.path, '/'), endpoint)
    ensures o.parse(base).Success? && rid == "" ==> r.value.query == o.parse(base).value.query
    ensures o.parse(base).Success? && rid != "" ==>
      "rid" in r.value.query && r.value.query["rid"] == [rid]
      && forall k :: k != "rid" ==>
        (k in r.value.query <==> k in o.parse(base).value.query)
        && (k in r.value.query ==> r.value.query[k] == o.parse(base).value.query[k])
  {
    match o.parse(base)
    case Failure(e) => Failure(e)
    case Success(u) =>
      var path := if endpoint != "" then o.joinPath(TrimRightChar(u.path, '/'), endpoint) else u.path;
      var query := if rid != "" then u.query["rid" := [rid]] else u.query;
      Result.Success(Url(u.rest, path, query))
  }

  /**
   * doPost's verdict on one response: only status 200 is delivered; a status of the client
   * error class (section 15.5 of RFC 9110) and a request that cannot be built are final
   * errors; a transport error and every other status are retried.
   */
  function Classify(resp: Response): (a: Attempt)
    ensures a.Delivered? <==> resp.HttpResponse? && resp.status == 200
    ensures a.Rejected? && !a.retryable <==>
      resp.RequestError? || (resp.HttpResponse? && 400 <= resp.status < 500)
    ensures resp.RequestError? ==> a == Rejected("new request: " + resp.msg, false)
    ensures resp.TransportError? ==> a == Rejected(resp.msg, true)
    ensures resp.HttpResponse? && resp.status != 200 ==>
      a.Rejected? && a.msg == "healthcheck error " + Itoa(resp.status) + ": " + TrimSpace(resp.body)
  {
    match resp
    case RequestError(msg) => Rejected("new request: " + msg, false)
    case TransportError(msg) => Rejected(msg, true)
    case HttpResponse(status, body) =>
      if status == 200 then Delivered
      else
        var text := "healthcheck error " + Itoa(status) + ": " + TrimSpace(body);
        Rejected(text, !(400 <= status < 500))
  }

  /** The attempts of one post: attempt i sends `body` to `url` and classifies the answer. */
  function Attempts(o: HttpOracle, url: string, body: string): nat -> Attempt {
    (i: nat) => Classify(o.send(url, body, i))
  }

  /** What one post came to: the URL it targeted (none if it sent nothing), the retry events and the error. */
  datatype Delivery = Delivery(target: Option<Url>, events: seq<RetryEvent>, err: Status)

  /** post, as a function: build the URL, encode the body, then send with retries. */
  function PostOutcome(c: Client, o: HttpOracle, endpoint: string, rid: string, p: Body): (d: Delivery)
    ensures d.target.Some? <==> o.parse(c.baseUrl).Success? && o.marshal(p).Success?
    ensures d.target.None? ==> d.events == [] && d.err.Failed?
    ensures o.parse(c.baseUrl).Failure? ==>
      d.err == Failed("invalid healthcheck URL: " + o.parse(c.baseUrl).error)
    ensures d.target.Some? ==> d.target == Some(BuildUrl(o, c.baseUrl, endpoint, rid).value)
  {
    match BuildUrl(o, c.baseUrl, endpoint, rid)
    case Failure(e) => Delivery(None, [], Failed("invalid healthcheck URL: " + e))
    case Success(u) =>
      match o.marshal(p)
      case Failure(e) => Delivery(None, [], Failed("marshal payload: " + e))
      case Success(body) =>
        var (events, err) := RetryFrom(Attempts(o, o.render(u), body), 0, "");
        Delivery(Some(u), events, err)
  }

  /** post: the URL and body are prepared once, then withRetry sends them. */
  method Post(c: Client, o: HttpOracle, endpoint: string, rid: string, p: Body) returns (d: Delivery)
    ensures d == PostOutcome(c, o, endpoint, rid, p)
  {
    var u := BuildUrl(o, c.baseUrl, endpoint, rid);
    if u.Failure? {
      return Delivery(None, [], Failed("invalid healthcheck URL: " + u.error));
    }
    var body := o.marshal(p);
    if body.Failure? {
      return Delivery(None, [], Failed("marshal payload: " + body.error));
    }
    var events, err := WithRetry(Attempts(o, o.render(u.value), body.value));
    d := Delivery(Some(u.value), events, err);
  }

  /** The server answered the request of attempt `i` with status 200. */
  predicate AnsweredOk(o: HttpOracle, u: Url, body: string, i: nat) {
    var resp := o.send(o.render(u), body, i);
    resp.HttpResponse? && resp.status == 200
  }

  /**
   * A post sends at most three requests, all to the URL it built; when it succeeds, one of
   * the attempts it made was answered with status 200.
   */
  lemma PostBounded(c: Client, o: HttpOracle, endpoint: string, rid: string, p: Body)
    ensures Calls(PostOutcome(c, o, endpoint, rid, p).events) <= MaxRetries
    ensures var d := PostOutcome(c, o, endpoint, rid, p);
      d.err == Ok ==>
        (d.target.Some? && o.marshal(p).Success?
         && exists i :: 0 <= i < MaxRetries && Call(i) in d.events && AnsweredOk(o, d.target.value, o.marshal(p).value, i))
  {
    var d := PostOutcome(c, o, endpoint, rid, p);
    if d.target.Some? {
      var fn := Attempts(o, o.render(d.target.value), o.marshal(p).value);
      AtMostThreeCalls(fn, 0, "");
      DeliveredByACall(fn);
    } else {
      assert d.events == [];
    }
  }

  /** Start posts the job list to the "start" endpoint of the check. */
  method Start(c: Client, o: HttpOracle, rid: string, jobs: seq<string>) returns (d: Delivery)
    ensures d == PostOutcome(c, o, "start", rid, JobsListBody(jobs))
    ensures d.target.Some? ==>
      (o.parse(c.baseUrl).Success?
       && d.target.value.path == o.joinPath(TrimRightChar(o.parse(c.baseUrl).value.path, '/'), "start"))
  {
    d := Post(c, o, "start", rid, JobsListBody(jobs));
  }

  /** Success posts the job results to the check's own URL. */
  method Success(c: Client, o: HttpOracle, rid: string, r: JobResults) returns (d: Delivery)
    ensures d == PostOutcome(c, o, "", rid, ResultsBody(r.successJobs, r.failedJobs))
    ensures d.target.Some? ==>
      (o.parse(c.baseUrl).Success? && d.target.value.path == o.parse(c.baseUrl).value.path)
  {
    d := Post(c, o, "", rid, ResultsBody(r.successJobs, r.failedJobs));
  }

  /** Fail posts the job results to the "fail" endpoint of the check. */
  method Fail(c: Client, o: HttpOracle, rid: string, r: JobResults) returns (d: Delivery)
    ensures d == PostOutcome(c, o, "fail", rid, ResultsBody(r.successJobs, r.failedJobs))
    ensures d.target.Some? ==>
      (o.parse(c.baseUrl).Success?
       && d.target.value.path == o.joinPath(TrimRightChar(o.parse(c.baseUrl).value.path, '/'), "fail"))
  {
    d := Post(c, o, "fail", rid, ResultsBody(r.successJobs, r.failedJobs));
  }
}
