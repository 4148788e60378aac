/**
 * Message routing of main.go: the writer-URL map built from the comma-separated
 * service list (createServicesMap), the extraction of the routing headers of a
 * consumed message (readMessage) and the PUT to the mapped writer with the
 * classification of its reply (sendToWriter).
 */
module Routing {
  import opened Wrappers
  import opened Text

  const MessageTypeHeader := "Message-Type"
  const MessageIdHeader := "Message-Id"

  /** Every writer is reached through the local proxy on port 8080. */
  const WriterUrlPrefix := "http://localhost:8080/__"

  function WriterUrl(service: string, concept: string): string {
    WriterUrlPrefix + service + "/" + concept
  }

  // ---------------------------------------------------------------------------
  // createServicesMap

  /** The entries a single service-list element contributes to the map. */
  function EntriesFor(service: string, messageTypeMap: map<string, string>): map<string, string> {
    map mt | mt in messageTypeMap && Contains(service, messageTypeMap[mt]) :: WriterUrl(service, messageTypeMap[mt])
  }

  /** The map after processing `services` in order; a later element overwrites an earlier one. */
  function ServicesFor(services: seq<string>, messageTypeMap: map<string, string>): map<string, string>
    decreases |services|
  {
    if services == [] then map[]
    else ServicesFor(services[..|services| - 1], messageTypeMap) + EntriesFor(services[|services| - 1], messageTypeMap)
  }

  /** The entries contributed by the message types in `done` alone. */
  function EntriesAmong(service: string, messageTypeMap: map<string, string>, done: set<string>): map<string, string> {
    map mt | mt in messageTypeMap && mt in done && Contains(service, messageTypeMap[mt]) :: WriterUrl(service, messageTypeMap[mt])
  }

  lemma EntriesAmongStep(service: string, messageTypeMap: map<string, string>, done: set<string>, mt: string)
    requires mt in messageTypeMap && mt !in done
    ensures EntriesAmong(service, messageTypeMap, done + {mt}) ==
            if Contains(service, messageTypeMap[mt])
            then EntriesAmong(service, messageTypeMap, done)[mt := WriterUrl(service, messageTypeMap[mt])]
            else EntriesAmong(service, messageTypeMap, done)
  {
  }

  lemma ServicesForSnoc(services: seq<string>, i: int, messageTypeMap: map<string, string>)
    requires 0 <= i < |services|
    ensures ServicesFor(services[..i + 1], messageTypeMap) == ServicesFor(services[..i], messageTypeMap) + EntriesFor(services[i], messageTypeMap)
  {
    assert services[..i + 1][..i] == services[..i];
  }

  lemma EntriesAmongAll(service: string, messageTypeMap: map<string, string>, done: set<string>)
    requires messageTypeMap.Keys <= done
    ensures EntriesAmong(service, messageTypeMap, done) == EntriesFor(service, messageTypeMap)
  {
  }

  lemma UnionUpdate(m: map<string, string>, n: map<string, string>, k: string, v: string)
    ensures (m + n)[k := v] == m + n[k := v]
  {
  }

  /** createServicesMap: a nested loop over the split service list and the message-type table. */
  method CreateServicesMap(services: string, messageTypeMap: map<string, string>) returns (servicesMap: map<string, string>)
    ensures servicesMap == ServicesFor(Split(services, ','), messageTypeMap)
  {
    var stringSlice := Split(services, ',');
    servicesMap := map[];
    var i := 0;
    while i < |stringSlice|
      invariant 0 <= i <= |stringSlice|
      invariant servicesMap == ServicesFor(stringSlice[..i], messageTypeMap)
    {
      var service := stringSlice[i];
      ghost var before := servicesMap;
      ghost var done: set<string> := {};
      var pending := messageTypeMap.Keys;
      while pending != {}
        invariant pending <= messageTypeMap.Keys && done == messageTypeMap.Keys - pending
        invariant servicesMap == before + EntriesAmong(service, messageTypeMap, done)
        decreases pending
      {
        var messageType :| messageType in pending;
        var concept := messageTypeMap[messageType];
        EntriesAmongStep(service, messageTypeMap, done, messageType);
        if Contains(service, concept) {
          var writerUrl := WriterUrl(service, concept);
          UnionUpdate(before, EntriesAmong(service, messageTypeMap, done), messageType, writerUrl);
          servicesMap := servicesMap[messageType := writerUrl];
        }
        pending := pending - {messageType};
        done := done + {messageType};
      }
      EntriesAmongAll(service, messageTypeMap, done);
      ServicesForSnoc(stringSlice, i, messageTypeMap);
      i := i + 1;
    }
    assert stringSlice[..i] == stringSlice;
  }

  /** A message type is mapped exactly when some service element contains its concept. */
  lemma {:induction false} ServicesForDomain(services: seq<string>, messageTypeMap: map<string, string>, mt: string)
    ensures mt in ServicesFor(services, messageTypeMap) <==>
            mt in messageTypeMap && exists j :: 0 <= j < |services| && Contains(services[j], messageTypeMap[mt])
    decreases |services|
  {
    if services != [] {
      var init := services[..|services| - 1];
      ServicesForDomain(init, messageTypeMap, mt);
      if mt in messageTypeMap {
        forall j | 0 <= j < |init| ensures init[j] == services[j] { }
      }
    }
  }

  /** The URL of a mapped type comes from the last service element that contains its concept. */
  lemma {:induction false} ServicesForLastWins(services: seq<string>, messageTypeMap: map<string, string>, mt: string, j: int)
    requires mt in messageTypeMap && 0 <= j < |services|
    requires Contains(services[j], messageTypeMap[mt])
    requires forall k :: j < k < |services| ==> !Contains(services[k], messageTypeMap[mt])
    ensures mt in ServicesFor(services, messageTypeMap)
    ensures ServicesFor(services, messageTypeMap)[mt] == WriterUrl(services[j], messageTypeMap[mt])
    decreases |services|
  {
    var last := |services| - 1;
    if j < last {
      var init := services[..last];
      assert !Contains(services[last], messageTypeMap[mt]);
      ServicesForLastWins(init, messageTypeMap, mt, j);
    }
  }

  /** Only keys of the message-type table can appear. */
  lemma ServicesForKeys(services: seq<string>, messageTypeMap: map<string, string>)
    ensures ServicesFor(services, messageTypeMap).Keys <= messageTypeMap.Keys
  {
    forall mt | mt in ServicesFor(services, messageTypeMap) ensures mt in messageTypeMap {
      ServicesForDomain(services, messageTypeMap, mt);
    }
  }

  /** Every mapped value is the writer URL of some service element holding the concept and no later one. */
  lemma ServicesForValue(services: seq<string>, messageTypeMap: map<string, string>, mt: string)
    requires mt in ServicesFor(services, messageTypeMap)
    ensures mt in messageTypeMap
    ensures exists j :: 0 <= j < |services| && Contains(services[j], messageTypeMap[mt]) &&
                        (forall k :: j < k < |services| ==> !Contains(services[k], messageTypeMap[mt])) &&
                        ServicesFor(services, messageTypeMap)[mt] == WriterUrl(services[j], messageTypeMap[mt])
  {
    ServicesForDomain(services, messageTypeMap, mt);
    var concept := messageTypeMap[mt];
    var j :| 0 <= j < |services| && Contains(services[j], concept);
    while exists k :: j < k < |services| && Contains(services[k], concept)
      invariant 0 <= j < |services| && Contains(services[j], concept)
      decreases |services| - j
    {
      var k :| j < k < |services| && Contains(services[k], concept);
      j := k;
    }
    ServicesForLastWins(services, messageTypeMap, mt, j);
  }

  // ---------------------------------------------------------------------------
  // readMessage

  datatype Message = Message(headers: map<string, string>, body: string)

  /** A header's value, or "" when the header is absent (Go's zero value). */
  function HeaderOrEmpty(headers: map<string, string>, name: string): string {
    if name in headers then headers[name] else ""
  }

  /** The header loop of readMessage: one pass over the headers in arbitrary order. */
  method ExtractTypeAndId(headers: map<string, string>) returns (ingestionType: string, uuid: string)
    ensures MessageTypeHeader in headers ==> ingestionType == headers[MessageTypeHeader]
    ensures MessageTypeHeader !in headers ==> ingestionType == ""
    ensures MessageIdHeader in headers ==> uuid == headers[MessageIdHeader]
    ensures MessageIdHeader !in headers ==> uuid == ""
  {
    ingestionType, uuid := "", "";
    var pending := headers.Keys;
    while pending != {}
      invariant pending <= headers.Keys
      invariant ingestionType == if MessageTypeHeader in headers && MessageTypeHeader !in pending then headers[MessageTypeHeader] else ""
      invariant uuid == if MessageIdHeader in headers && MessageIdHeader !in pending then headers[MessageIdHeader] else ""
      decreases pending
    {
      var k :| k in pending;
      var v := headers[k];
      if k == MessageTypeHeader {
        ingestionType := v;
      }
      if k == MessageIdHeader {
        uuid := v;
      }
      pending := pending - {k};
    }
  }

  /** A header other than the two routing headers never changes what is extracted. */
  lemma {:induction false} OtherHeadersIgnored(headers: map<string, string>, name: string, value: string)
    requires name != MessageTypeHeader && name != MessageIdHeader
    ensures HeaderOrEmpty(headers[name := value], MessageTypeHeader) == HeaderOrEmpty(headers, MessageTypeHeader)
    ensures HeaderOrEmpty(headers[name := value], MessageIdHeader) == HeaderOrEmpty(headers, MessageIdHeader)
  {
  }

  /** The headers of the test message built by createMessage in main_test.go. */
  function TestMessageHeaders(messageId: string, messageType: string): map<string, string> {
    map[
      "Content-Type" := "application/json",
      "Message-Id" := messageId,
      "Message-Timestamp" := "2016-06-16T08:14:36.910Z",
      "Message-Type" := messageType,
      "Origin-System-Id" := "http://cmdb.ft.com/systems/upp",
      "X-Request-Id" := "tid_newid"
    ]
  }

  /** TestUuidAndMessageTypeAreExtractedFromMessage: the two routing headers come out, the other four are ignored. */
  lemma TestMessageRouting(messageId: string, messageType: string)
    ensures HeaderOrEmpty(TestMessageHeaders(messageId, messageType), MessageTypeHeader) == messageType
    ensures HeaderOrEmpty(TestMessageHeaders(messageId, messageType), MessageIdHeader) == messageId
  {
  }

  // ---------------------------------------------------------------------------
  // sendToWriter

  /** The outbound request; a content length of -1 means "unknown, stream the body". */
  datatype Request = Request(verb: string, url: string, body: string, contentLength: int)

  /** What the writer answered: the status line text and the numeric code. */
  datatype Response = Response(status: string, statusCode: int)

  /**
   * The network as seen by sendToWriter: whether http.NewRequest accepts a URL,
   * and what client.Do yields for a request (None for a transport error, where
   * Go leaves the response nil).
   */
  datatype Network = Network(acceptsUrl: string -> bool, exchange: Request -> Option<Response>)

  datatype Panic = NilRequest | NilResponse

  /**
   * The three results of sendToWriter: it panics by dereferencing a nil request
   * or a nil response, or it returns the response, the error (None for nil) and
   * the writer URL it looked up.
   */
  datatype SendOutcome =
    | Panicked(reason: Panic)
    | Returned(request: Request, response: Response, err: Option<string>, writerUrl: string)

  const SuccessStatus := "200 OK"
  const NotWrittenPrefix := "Concept not written! Status code was "

  /** Map lookup with Go's zero value for a missing key. */
  function Lookup(urlMap: map<string, string>, key: string): string {
    if key in urlMap then urlMap[key] else ""
  }

  function WriteRequest(writerUrl: string, uuid: string, body: string): Request {
    Request("PUT", writerUrl + "/" + uuid, body, -1)
  }

  /** The error sendToWriter returns for a reply; None exactly when the status text carries "200 OK". */
  function Classify(response: Response): (err: Option<string>)
    ensures err.None? <==> Contains(response.status, SuccessStatus)
    ensures err.Some? ==> |err.value| > |NotWrittenPrefix| && err.value[..|NotWrittenPrefix|] == NotWrittenPrefix &&
                          IsCanonicalIntText(err.value[|NotWrittenPrefix|..]) &&
                          ParseInt(err.value[|NotWrittenPrefix|..]) == response.statusCode
  {
    if Contains(response.status, SuccessStatus) then None
    else
      var message := NotWrittenPrefix + Itoa(response.statusCode);
      assert message[|NotWrittenPrefix|..] == Itoa(response.statusCode);
      Some(message)
  }

  function SendToWriter(ingestionType: string, body: string, uuid: string, urlMap: map<string, string>, network: Network): (r: SendOutcome)
    ensures r.Panicked? <==>
            !network.acceptsUrl(Lookup(urlMap, ingestionType) + "/" + uuid) ||
            network.exchange(WriteRequest(Lookup(urlMap, ingestionType), uuid, body)).None?
    ensures r.Returned? ==>
              r.writerUrl == Lookup(urlMap, ingestionType) &&
              r.request.verb == "PUT" && r.request.url == r.writerUrl + "/" + uuid &&
              r.request.body == body && r.request.contentLength == -1 &&
              network.exchange(r.request) == Some(r.response) &&
              r.err == Classify(r.response) &&
              (r.err.None? <==> Contains(r.response.status, SuccessStatus))
  {
    var writerUrl := Lookup(urlMap, ingestionType);
    var reqUrl := writerUrl + "/" + uuid;
    if !network.acceptsUrl(reqUrl) then Panicked(NilRequest)
    else
      var request := WriteRequest(writerUrl, uuid, body);
      match network.exchange(request)
      case None => Panicked(NilResponse)
      case Some(resp) => Returned(request, resp, Classify(resp), writerUrl)
  }

  /**
   * What Go's client.Do does with a path-only URL (no scheme, no host): it
   * refuses it before any I/O and returns a nil response.
   */
  ghost predicate RefusesPathOnly(network: Network) {
    forall request: Request :: |request.url| >= 1 && request.url[0] == '/' ==> network.exchange(request).None?
  }

  /**
   * As written: an unmapped type (or a missing Message-Type header) sends to the
   * path-only URL "/" + uuid, gets no response, and crashes on the nil response
   * (or on the nil request, if the URL is refused).
   */
  lemma {:induction false} UnmappedTypePanics(ingestionType: string, body: string, uuid: string, urlMap: map<string, string>, network: Network)
    requires ingestionType !in urlMap
    requires RefusesPathOnly(network)
    ensures SendToWriter(ingestionType, body, uuid, urlMap, network).Panicked?
    ensures network.acceptsUrl("/" + uuid) ==> SendToWriter(ingestionType, body, uuid, urlMap, network) == Panicked(NilResponse)
  {
    var request := WriteRequest(Lookup(urlMap, ingestionType), uuid, body);
    assert request.url == "/" + uuid;
    assert request.url[0] == '/';
  }

  const NoWriterPrefix := "No configured writer for concept: "

  /**
   * Corrected dispatch: a type with no configured writer fails with a routing-miss
   * error before any request is built; every other type is sent as sendToWriter does.
   */
  function SendToConfiguredWriter(ingestionType: string, body: string, uuid: string, urlMap: map<string, string>, network: Network): (r: Result<SendOutcome, string>)
    ensures r.Failure? <==> Lookup(urlMap, ingestionType) == ""
    ensures r.Failure? ==> r.error == NoWriterPrefix + ingestionType
    ensures r.Success? ==> r.value == SendToWriter(ingestionType, body, uuid, urlMap, network)
  {
    if Lookup(urlMap, ingestionType) == "" then Failure(NoWriterPrefix + ingestionType)
    else Success(SendToWriter(ingestionType, body, uuid, urlMap, network))
  }

  /**
   * The intended behaviour of a routing miss: no request is made, so the outcome is the
   * same error whatever the network would have done, and it never panics.
   */
  lemma RoutingMissMakesNoRequest(ingestionType: string, body: string, uuid: string, urlMap: map<string, string>, network1: Network, network2: Network)
    requires ingestionType !in urlMap
    ensures SendToConfiguredWriter(ingestionType, body, uuid, urlMap, network1) ==
            SendToConfiguredWriter(ingestionType, body, uuid, urlMap, network2) ==
            Failure(NoWriterPrefix + ingestionType)
  {
  }

  datatype HttpConfigurations = HttpConfigurations(baseUrlMap: map<string, string>, network: Network)

  /** readMessage: extract the routing headers, then send the body to the mapped writer. */
  method ReadMessage(conf: HttpConfigurations, msg: Message) returns (r: SendOutcome)
    ensures r == SendToWriter(HeaderOrEmpty(msg.headers, MessageTypeHeader), msg.body,
                              HeaderOrEmpty(msg.headers, MessageIdHeader), conf.baseUrlMap, conf.network)
  {
    var ingestionType, uuid := ExtractTypeAndId(msg.headers);
    r := SendToWriter(ingestionType, msg.body, uuid, conf.baseUrlMap, conf.network);
  }

  /**
   * End to end: with the map createServicesMap builds, a message type whose concept
   * occurs last in service element j is PUT to that element's writer, followed by the id.
   */
  lemma RoutedRequestUrl(services: string, messageTypeMap: map<string, string>, mt: string, j: int, uuid: string, body: string)
    requires mt in messageTypeMap && 0 <= j < |Split(services, ',')|
    requires Contains(Split(services, ',')[j], messageTypeMap[mt])
    requires forall k :: j < k < |Split(services, ',')| ==> !Contains(Split(services, ',')[k], messageTypeMap[mt])
    ensures WriteRequest(Lookup(ServicesFor(Split(services, ','), messageTypeMap), mt), uuid, body).url ==
            WriterUrlPrefix + Split(services, ',')[j] + "/" + messageTypeMap[mt] + "/" + uuid
  {
    ServicesForLastWins(Split(services, ','), messageTypeMap, mt, j);
  }
}
