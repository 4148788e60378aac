/**
 * Health-check decisions of handlers.go: the kafka-proxy reachability and topic
 * check, the writers' `__gtg` probes and the good-to-go verdict combining both.
 * Every network call and the JSON decoder are oracles passed in as functions.
 */
module Health {
  import opened Wrappers
  import opened Text

  newtype byte = x: int | 0 <= x < 256

  const StatusOK := 200
  const StatusServiceUnavailable := 503
  const GtgSuffix := "__gtg"

  datatype HttpHandlers = HttpHandlers(baseURLSlice: seq<string>, vulcanAddr: string, topic: string)

  // ---------------------------------------------------------------------------
  // checkProxyConnection

  /** The GET sent to the proxy, with its Host header. */
  datatype ProxyRequest = ProxyRequest(verb: string, url: string, host: string)

  /** What the proxy call yields: no response at all, or a status code and the outcome of reading the body. */
  datatype ProxyReply = NoResponse(error: string) | Responded(statusCode: int, body: Result<seq<byte>, string>)

  /**
   * The proxy side of the network: the error http.NewRequest gives for a URL
   * (None when it accepts it) and the reply to a request.
   */
  datatype ProxyClient = ProxyClient(requestError: string -> Option<string>, exchange: ProxyRequest -> ProxyReply)

  const ProxyUnreachable := "Connecting to kafka-proxy was unsuccessful."
  const ProxyBadStatusPrefix := "Connecting to kafka-proxy was unsuccessful. Status was "

  function TopicsRequest(vulcanAddr: string): ProxyRequest {
    ProxyRequest("GET", vulcanAddr + "/topics", "kafka")
  }

  /** checkProxyConnection: the body of the proxy's topic list, or why it could not be had. */
  function CheckProxyConnection(vulcanAddr: string, client: ProxyClient): (r: Result<seq<byte>, string>)
    ensures client.requestError(vulcanAddr + "/topics").Some? ==> r == Failure(client.requestError(vulcanAddr + "/topics").value)
    ensures client.requestError(vulcanAddr + "/topics").None? && client.exchange(TopicsRequest(vulcanAddr)).NoResponse? ==>
              r == Failure(ProxyUnreachable)
    ensures r.Success? ==>
              client.requestError(vulcanAddr + "/topics").None? &&
              client.exchange(TopicsRequest(vulcanAddr)) == Responded(StatusOK, r)
    ensures client.requestError(vulcanAddr + "/topics").None? && client.exchange(TopicsRequest(vulcanAddr)).Responded? &&
            client.exchange(TopicsRequest(vulcanAddr)).statusCode == StatusOK ==>
              r == client.exchange(TopicsRequest(vulcanAddr)).body
    ensures client.requestError(vulcanAddr + "/topics").None? && client.exchange(TopicsRequest(vulcanAddr)).Responded? &&
            client.exchange(TopicsRequest(vulcanAddr)).statusCode != StatusOK ==>
              r.Failure? && |r.error| > |ProxyBadStatusPrefix| && r.error[..|ProxyBadStatusPrefix|] == ProxyBadStatusPrefix &&
              IsCanonicalIntText(r.error[|ProxyBadStatusPrefix|..]) &&
              ParseInt(r.error[|ProxyBadStatusPrefix|..]) == client.exchange(TopicsRequest(vulcanAddr)).statusCode
  {
    var url := vulcanAddr + "/topics";
    match client.requestError(url)
    case Some(e) => Failure(e)
    case None =>
      match client.exchange(ProxyRequest("GET", url, "kafka"))
      case NoResponse(_) => Failure(ProxyUnreachable)
      case Responded(code, body) =>
        if code != StatusOK then
          var message := ProxyBadStatusPrefix + Itoa(code);
          assert message[|ProxyBadStatusPrefix|..] == Itoa(code);
          Failure(message)
        else body
  }

  // ---------------------------------------------------------------------------
  // checkIfTopicIsPresent

  const ParseErrorPrefix := "Connection established to kafka-proxy, but parsing response resulted in following error: "

  function TopicMissing(expectedTopic: string): string {
    "Connection established to kafka-proxy, but expected topic " + expectedTopic + " was not found"
  }

  /** What checkIfTopicIsPresent returns for a decoded body (a topic list or a JSON error). */
  function TopicCheck(decoded: Result<seq<string>, string>, expectedTopic: string): Option<string> {
    match decoded
    case Failure(e) => Some(ParseErrorPrefix + e)
    case Success(topics) => if expectedTopic in topics then None else Some(TopicMissing(expectedTopic))
  }

  /**
   * checkIfTopicIsPresent: decode the body, then scan the topics, returning at the
   * first equal one. `compared` counts the comparisons the scan made.
   */
  method CheckIfTopicIsPresent(body: seq<byte>, expectedTopic: string, decode: seq<byte> -> Result<seq<string>, string>)
    returns (err: Option<string>, compared: nat)
    ensures err.None? <==> decode(body).Success? && expectedTopic in decode(body).value
    ensures err == TopicCheck(decode(body), expectedTopic)
    ensures decode(body).Failure? ==> compared == 0
    ensures decode(body).Success? && err.None? ==>
              compared >= 1 && compared <= |decode(body).value| &&
              decode(body).value[compared - 1] == expectedTopic &&
              expectedTopic !in decode(body).value[..compared - 1]
    ensures decode(body).Success? && err.Some? ==> compared == |decode(body).value|
  {
    match decode(body)
    case Failure(e) =>
      return Some(ParseErrorPrefix + e), 0;
    case Success(registeredTopics) =>
      compared := 0;
      while compared < |registeredTopics|
        invariant compared <= |registeredTopics|
        invariant expectedTopic !in registeredTopics[..compared]
      {
        var topic := registeredTopics[compared];
        compared := compared + 1;
        if topic == expectedTopic {
          return None, compared;
        }
        assert registeredTopics[..compared] == registeredTopics[..compared - 1] + [topic];
      }
      assert registeredTopics[..compared] == registeredTopics;
      err := Some(TopicMissing(expectedTopic));
  }

  // ---------------------------------------------------------------------------
  // checkCanConnectToKafkaProxy

  /** checkCanConnectToKafkaProxy: the health message and the error, ("", None) when healthy. */
  function CanConnectToKafkaProxy(hh: HttpHandlers, client: ProxyClient, decode: seq<byte> -> Result<seq<string>, string>): (string, Option<string>) {
    match CheckProxyConnection(hh.vulcanAddr, client)
    case Failure(e) => ("Healthcheck: Error reading request body: " + e, Some(e))
    case Success(body) =>
      match TopicCheck(decode(body), hh.topic)
      case Some(e) => ("Healthcheck: Topics not present: " + e, Some(e))
      case None => ("", None)
  }

  /** The proxy check succeeds exactly when the proxy answered 200 and the decoded list holds the topic. */
  lemma KafkaProxyHealthy(hh: HttpHandlers, client: ProxyClient, decode: seq<byte> -> Result<seq<string>, string>)
    ensures CanConnectToKafkaProxy(hh, client, decode).1.None? <==>
            CheckProxyConnection(hh.vulcanAddr, client).Success? &&
            decode(CheckProxyConnection(hh.vulcanAddr, client).value).Success? &&
            hh.topic in decode(CheckProxyConnection(hh.vulcanAddr, client).value).value
    ensures CanConnectToKafkaProxy(hh, client, decode).1.None? ==> CanConnectToKafkaProxy(hh, client, decode).0 == ""
    ensures CanConnectToKafkaProxy(hh, client, decode).1.Some? ==> CanConnectToKafkaProxy(hh, client, decode).0 != ""
  {
  }

  /** The topic is looked at only after the connection succeeded: a failed connection makes the decoder irrelevant. */
  lemma KafkaProxyTopicOnlyAfterConnection(hh: HttpHandlers, client: ProxyClient, decode1: seq<byte> -> Result<seq<string>, string>, decode2: seq<byte> -> Result<seq<string>, string>)
    requires CheckProxyConnection(hh.vulcanAddr, client).Failure?
    ensures CanConnectToKafkaProxy(hh, client, decode1) == CanConnectToKafkaProxy(hh, client, decode2)
    ensures CanConnectToKafkaProxy(hh, client, decode1).1 == Some(CheckProxyConnection(hh.vulcanAddr, client).error)
  {
  }

  // ---------------------------------------------------------------------------
  // checkWriterStatus / checkWriterAvailability

  /** What http.Get of a `__gtg` endpoint yields: a transport error, or a status code. */
  datatype ProbeResult = ProbeFailed(error: string) | ProbeStatus(code: int)

  predicate Healthy(p: ProbeResult) {
    p.ProbeStatus? && p.code == StatusOK
  }

  /** The error checkWriterStatus passes on for a failing probe: the transport error, nil for a bad status. */
  function ProbeError(p: ProbeResult): Option<string> {
    if p.ProbeFailed? then Some(p.error) else None
  }

  /** Index of the first endpoint that does not answer 200, or the length when all do. */
  function FirstFailure(endpoints: seq<string>, get: string -> ProbeResult): (k: nat)
    ensures k <= |endpoints|
    ensures forall j :: 0 <= j < k ==> Healthy(get(endpoints[j]))
    ensures k < |endpoints| ==> !Healthy(get(endpoints[k]))
  {
    if endpoints == [] || !Healthy(get(endpoints[0])) then 0
    else 1 + FirstFailure(endpoints[1..], get)
  }

  /** checkWriterStatus's (goodToGo, err). */
  function WriterStatus(endpoints: seq<string>, get: string -> ProbeResult): (bool, Option<string>) {
    var k := FirstFailure(endpoints, get);
    if k == |endpoints| then (true, None) else (false, ProbeError(get(endpoints[k])))
  }

  /** The endpoints checkWriterStatus probes: all of them, or up to and including the first failing one. */
  function ProbeTrace(endpoints: seq<string>, get: string -> ProbeResult): seq<string> {
    var k := FirstFailure(endpoints, get);
    if k == |endpoints| then endpoints else endpoints[..k + 1]
  }

  /**
   * checkWriterStatus: probe the endpoints in order and stop at the first one with
   * a transport error or a status other than 200. `probed` lists the endpoints
   * actually requested.
   */
  method CheckWriterStatus(endpointsToCheck: seq<string>, get: string -> ProbeResult)
    returns (goodToGo: bool, err: Option<string>, probed: seq<string>)
    ensures goodToGo <==> forall j :: 0 <= j < |endpointsToCheck| ==> Healthy(get(endpointsToCheck[j]))
    ensures goodToGo ==> err.None? && probed == endpointsToCheck
    ensures !goodToGo ==>
              exists k :: 0 <= k < |endpointsToCheck| && probed == endpointsToCheck[..k + 1] &&
                          !Healthy(get(endpointsToCheck[k])) &&
                          (forall j :: 0 <= j < k ==> Healthy(get(endpointsToCheck[j]))) &&
                          err == ProbeError(get(endpointsToCheck[k]))
    ensures (goodToGo, err) == WriterStatus(endpointsToCheck, get)
    ensures probed == ProbeTrace(endpointsToCheck, get)
  {
    var i := 0;
    probed := [];
    while i < |endpointsToCheck|
      invariant 0 <= i <= |endpointsToCheck|
      invariant probed == endpointsToCheck[..i]
      invariant forall j :: 0 <= j < i ==> Healthy(get(endpointsToCheck[j]))
    {
      var writerG2G := endpointsToCheck[i];
      var resp := get(writerG2G);
      probed := probed + [writerG2G];
      if resp.ProbeFailed? || resp.code != StatusOK {
        assert FirstFailure(endpointsToCheck, get) == i by {
          FirstFailureAt(endpointsToCheck, get, i);
        }
        assert probed == endpointsToCheck[..i + 1];
        return false, ProbeError(resp), probed;
      }
      i := i + 1;
    }
    assert probed == endpointsToCheck;
    FirstFailureAt(endpointsToCheck, get, i);
    return true, None, probed;
  }

  /** The first failure is pinned down by the healthy prefix before it. */
  lemma {:induction false} FirstFailureAt(endpoints: seq<string>, get: string -> ProbeResult, i: nat)
    requires i <= |endpoints|
    requires forall j :: 0 <= j < i ==> Healthy(get(endpoints[j]))
    requires i < |endpoints| ==> !Healthy(get(endpoints[i]))
    ensures FirstFailure(endpoints, get) == i
  {
    if i > 0 {
      FirstFailureAt(endpoints[1..], get, i - 1);
    }
  }

  /** The `__gtg` endpoint of every base URL, in order. */
  function GtgEndpoints(baseURLSlice: seq<string>): (endpoints: seq<string>)
    ensures |endpoints| == |baseURLSlice|
    ensures forall j :: 0 <= j < |baseURLSlice| ==> endpoints[j] == baseURLSlice[j] + GtgSuffix
  {
    if baseURLSlice == [] then [] else [baseURLSlice[0] + GtgSuffix] + GtgEndpoints(baseURLSlice[1..])
  }

  /** checkWriterAvailability's error: checkWriterStatus's error when it is not good to go, nil otherwise. */
  function WriterAvailability(baseURLSlice: seq<string>, get: string -> ProbeResult): Option<string> {
    var (goodToGo, gtgErr) := WriterStatus(GtgEndpoints(baseURLSlice), get);
    if !goodToGo then gtgErr else None
  }

  /** checkWriterAvailability: append `__gtg` to every base URL, then probe the list. */
  method CheckWriterAvailability(baseURLSlice: seq<string>, get: string -> ProbeResult)
    returns (err: Option<string>, probed: seq<string>)
    ensures err == WriterAvailability(baseURLSlice, get)
    ensures probed == ProbeTrace(GtgEndpoints(baseURLSlice), get)
  {
    var endpointsToCheck: seq<string> := [];
    var i := 0;
    while i < |baseURLSlice|
      invariant 0 <= i <= |baseURLSlice|
      invariant |endpointsToCheck| == i
      invariant forall j :: 0 <= j < i ==> endpointsToCheck[j] == baseURLSlice[j] + GtgSuffix
    {
      endpointsToCheck := endpointsToCheck + [baseURLSlice[i] + GtgSuffix];
      i := i + 1;
    }
    assert endpointsToCheck == GtgEndpoints(baseURLSlice);
    var goodToGo, gtgErr;
    goodToGo, gtgErr, probed := CheckWriterStatus(endpointsToCheck, get);
    if !goodToGo {
      return gtgErr, probed;
    }
    return None, probed;
  }

  // ---------------------------------------------------------------------------
  // checkCanConnectToWriters and goodToGo

  /** checkCanConnectToWriters: the health message and the error, ("", None) when healthy. */
  function CanConnectToWriters(hh: HttpHandlers, get: string -> ProbeResult): (string, Option<string>) {
    match WriterAvailability(hh.baseURLSlice, get)
    case Some(e) => ("Healthcheck: Writer not available: " + e, Some(e))
    case None => ("", None)
  }

  /**
   * The writer check reports an error exactly when the first writer that is not
   * good to go failed at the transport level; a writer answering with a status
   * other than 200 is reported as success.
   */
  lemma WritersHealthy(hh: HttpHandlers, get: string -> ProbeResult)
    ensures WriterStatus(GtgEndpoints(hh.baseURLSlice), get).0 <==>
            forall j :: 0 <= j < |hh.baseURLSlice| ==> Healthy(get(hh.baseURLSlice[j] + GtgSuffix))
    ensures var k := FirstFailure(GtgEndpoints(hh.baseURLSlice), get);
            CanConnectToWriters(hh, get).1.None? <==>
            k == |hh.baseURLSlice| || get(hh.baseURLSlice[k] + GtgSuffix).ProbeStatus?
  {
  }

  /** A non-200 status with no transport error at the first failing writer still reads as healthy. */
  lemma {:induction false} BadStatusIsMasked(hh: HttpHandlers, get: string -> ProbeResult, k: nat, code: int)
    requires k < |hh.baseURLSlice|
    requires forall j :: 0 <= j < k ==> get(hh.baseURLSlice[j] + GtgSuffix) == ProbeStatus(StatusOK)
    requires code != StatusOK && get(hh.baseURLSlice[k] + GtgSuffix) == ProbeStatus(code)
    ensures !WriterStatus(GtgEndpoints(hh.baseURLSlice), get).0
    ensures CanConnectToWriters(hh, get) == ("", None)
  {
    FirstFailureAt(GtgEndpoints(hh.baseURLSlice), get, k);
  }

  /** Everything goodToGo depends on from the outside world. */
  datatype Environment = Environment(proxy: ProxyClient, decode: seq<byte> -> Result<seq<string>, string>, get: string -> ProbeResult)

  /** What goodToGo does: the status it writes (None leaves the default 200) and the writer endpoints it probed. */
  datatype GtgResponse = GtgResponse(writtenStatus: Option<int>, writerProbes: seq<string>)

  /** goodToGo: 503 when the proxy check fails (writers untouched), else 503 when the writer check fails. */
  function GoodToGo(hh: HttpHandlers, env: Environment): GtgResponse {
    if CanConnectToKafkaProxy(hh, env.proxy, env.decode).1.Some? then GtgResponse(Some(StatusServiceUnavailable), [])
    else
      var probes := ProbeTrace(GtgEndpoints(hh.baseURLSlice), env.get);
      if CanConnectToWriters(hh, env.get).1.Some? then GtgResponse(Some(StatusServiceUnavailable), probes)
      else GtgResponse(None, probes)
  }

  /** The status a client of goodToGo sees. */
  function EffectiveStatus(r: GtgResponse): int {
    r.writtenStatus.GetOr(StatusOK)
  }

  /** The verdict: 200 exactly when both checks pass, 503 otherwise; no writer is probed after a proxy failure. */
  lemma GoodToGoVerdict(hh: HttpHandlers, env: Environment)
    ensures EffectiveStatus(GoodToGo(hh, env)) == StatusOK <==>
            CanConnectToKafkaProxy(hh, env.proxy, env.decode).1.None? && CanConnectToWriters(hh, env.get).1.None?
    ensures EffectiveStatus(GoodToGo(hh, env)) in {StatusOK, StatusServiceUnavailable}
    ensures GoodToGo(hh, env).writtenStatus != Some(StatusOK)
    ensures CanConnectToKafkaProxy(hh, env.proxy, env.decode).1.Some? ==> GoodToGo(hh, env).writerProbes == []
  {
  }

  /** After a failed proxy check the writers' answers do not matter. */
  lemma GoodToGoIgnoresWritersAfterProxyFailure(hh: HttpHandlers, env: Environment, get: string -> ProbeResult)
    requires CanConnectToKafkaProxy(hh, env.proxy, env.decode).1.Some?
    ensures GoodToGo(hh, env) == GoodToGo(hh, env.(get := get)) == GtgResponse(Some(StatusServiceUnavailable), [])
  {
  }
}
