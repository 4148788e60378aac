# concept-ingester: routing and health decisions in Dafny

This project models the decision logic of the concept ingester. The ingester consumes
concept messages from a Kafka proxy and forwards each one to the HTTP writer responsible
for its message type. The model covers three parts:

- **Routing (main.go).** `createServicesMap` turns the comma-separated service list into a
  map from message type to writer URL `http://localhost:8080/__<service>/<concept>`.
  `readMessage` takes the `Message-Type` and `Message-Id` headers. `sendToWriter` PUTs the body to
  `<writer URL>/<id>` and treats the reply as a success exactly when the status text contains
  `200 OK`.
- **Health checks (handlers.go).** The kafka-proxy check (connection, then topic presence).
  The writers' `__gtg` probes, which stop at the first failure. The good-to-go verdict
  (503 or the default 200).
- **Address shape (main_test.go).** The pattern `^http://H:P$` the tests use for writer
  addresses. It is written as a declarative predicate plus a recogniser that extracts the
  protocol, host and port groups. The tests' accept and reject tables are lemmas.

Files: `wrappers.dfy` (Option, Result), `text.dfy` (Go's `strings.Contains`,
`strings.Split` and `strconv.Itoa`, each with an independent meaning or an inverse),
`routing.dfy`, `health.dfy`, `address.dfy`.

The outside world is passed in as function-typed oracles:

- `Network` stands for `http.NewRequest` accepting a URL and for `client.Do`.
- `ProxyClient` stands for the proxy GET.
- `decode` stands for `json.Unmarshal`.
- `get` stands for the writers' `http.Get`.

Go's map iteration becomes a loop that picks keys from a shrinking set, so the proofs hold
for every iteration order.

The model follows the code as written. Two behaviours deserve a note:

- The request URL is `urlMap[type] + "/" + uuid` (main.go:191-193). The concept name is not
  appended at send time; it is already the last segment of the URL `createServicesMap` maps.
- A routing miss is meant to fail without any request. For the unknown type `animals` the
  test expects the writer URL `""` and an error (main_test.go:262-267). Its failure message
  names the error `No configured writer for concept: animals`, and `SendToConfiguredWriter`
  adopts that text. `sendToWriter` has no such check. With an unmapped type, or a missing
  `Message-Type` header, it sends to the path-only URL `"/" + uuid`, which has no scheme and
  no host. Go's client refuses that URL without a response, and `resp.Status` at main.go:200
  dereferences nil and crashes. This is recorded under "## Findings" (`UnmappedTypePanics`).
  The corrected dispatcher is `SendToConfiguredWriter`.

`sendToWriter` does not handle a failed `http.NewRequest` or `client.Do`. It dereferences
the nil request (main.go:196) or the nil response (main.go:200). The model gives both paths
an explicit `Panicked` outcome. `ReadMessage` models `readMessage` as written, so it uses
`SendToWriter`.

## Model

| member | source | states |
|---|---|---|
| Text.Contains | main.go:106 | `strings.Contains`; by `ContainsIff`, true exactly when `sub` occurs at some position of `s` |
| Text.ContainsIff | main.go:106 | `Contains(s, sub)` holds exactly when `sub` occurs at some position of `s` |
| Text.Split | main.go:102 | the pieces contain no separator, there is at least one, and joining them with the separator gives back the input |
| Text.Itoa | main.go:204 | the text is canonical (optional `-`, digits, no leading zero, no `-0`) and parses back to the number |
| Text.ItoaOnlyCanonical | main.go:204 | every canonical integer text is `Itoa` of the number it denotes, so canonical form plus value pins the text exactly |
| Routing.CreateServicesMap | main.go:101-115 | the nested loop over the split list and the type table builds exactly `ServicesFor(Split(services, ','), table)` |
| Routing.ServicesForDomain | main.go:104-109 | a message type is mapped if and only if it is in the table and some service element contains its concept |
| Routing.ServicesForKeys | main.go:104-109 | only keys of the message-type table appear in the map |
| Routing.ServicesForLastWins | main.go:104-109 | when several elements contain the concept, the last one gives the URL `http://localhost:8080/__<service>/<concept>` |
| Routing.ServicesForValue | main.go:102-109 | every mapped value is the writer URL of an element that contains the concept and has no later element containing it |
| Routing.ExtractTypeAndId | main.go:170-179 | the type is the value under `Message-Type` and the id the value under `Message-Id`, each `""` when absent, for any iteration order |
| Routing.OtherHeadersIgnored | main.go:172-179 | adding or changing any other header does not change what is extracted |
| Routing.TestMessageRouting | main_test.go:244-250 | for the test message's six headers, extraction returns exactly the type and the id |
| Routing.Classify | main.go:200-206 | no error if and only if the status text contains `200 OK`; otherwise the message is `Concept not written! Status code was ` followed by canonical decimal text of the status code, which `ItoaOnlyCanonical` shows is exactly `strconv.Itoa`'s |
| Routing.SendToWriter | main.go:190-208 | it panics exactly when the request URL is refused or no response arrives; otherwise it makes a PUT to `lookup + "/" + uuid` with content length -1, returns the reply with the error `Classify` gives for it, and returns that lookup as `writerUrl` on both the success and the failure path |
| Routing.UnmappedTypePanics | main.go:191-200 | as written, when the client refuses path-only URLs (no scheme, no host) as Go's does, an unmapped type always panics: on the nil response, or on the nil request if the URL is refused |
| Routing.SendToConfiguredWriter | main.go:190-208 | corrected dispatch: fails with `No configured writer for concept: <type>` exactly when the type has no writer URL, and otherwise is `SendToWriter` |
| Routing.RoutingMissMakesNoRequest | main_test.go:262-267 | with the correction, a routing miss gives that error whatever the network would do, so no request is made and nothing panics |
| Routing.ReadMessage | main.go:169-180 | the message is sent with the extracted type and id, its body and the configured map |
| Routing.RoutedRequestUrl | main.go:191-193 | with the built map, the request URL is `http://localhost:8080/__<last matching service>/<concept>/<uuid>` |
| Health.CheckProxyConnection | handlers.go:63-89 | a request error is returned as is; a missing response gives the "unsuccessful" error; a status other than 200 gives an error ending in the code's canonical decimal text; a 200 yields the result of reading the body, and only a 200 does |
| Health.CheckIfTopicIsPresent | handlers.go:91-104 | succeeds if and only if the body decodes and the expected topic is in the list; a decode failure gives the parse error with no comparison made; the scan stops at the first equal topic |
| Health.CanConnectToKafkaProxy | handlers.go:43-53 | by `KafkaProxyHealthy` and `KafkaProxyTopicOnlyAfterConnection`: `("", nil)` exactly when the proxy answered 200 and the decoded list holds the topic, and the topic is checked only after the connection succeeded |
| Health.KafkaProxyHealthy | handlers.go:43-53 | `("", nil)` exactly when the proxy answered 200 and the decoded list holds the topic; any error comes with a non-empty message |
| Health.KafkaProxyTopicOnlyAfterConnection | handlers.go:43-50 | when the connection fails, the decoder is never consulted and the connection's error is returned |
| Health.FirstFailure | handlers.go:135-141 | all probes before the index answered 200, and the endpoint at the index (if any) did not |
| Health.CheckWriterStatus | handlers.go:134-142 | true if and only if every endpoint answers 200 with no transport error; otherwise it probes up to and including the first failing endpoint and returns that probe's transport error, or nil for a bad status |
| Health.GtgEndpoints | handlers.go:123-126 | one endpoint per base URL, in order, each `baseURL + "__gtg"` with no separator |
| Health.CheckWriterAvailability | handlers.go:122-132 | the appended endpoint list is `GtgEndpoints(baseURLs)`, it is probed as checkWriterStatus does, and the error is passed on only when not good to go |
| Health.WritersHealthy | handlers.go:55-61 | the writers are good to go if and only if all answer 200; the writer check reports success if and only if no writer fails or the first failure is a status answer |
| Health.CanConnectToWriters | handlers.go:55-61 | by `WritersHealthy` and `BadStatusIsMasked`: success if and only if no writer fails or the first failure is a status answer rather than a transport error |
| Health.BadStatusIsMasked | handlers.go:137-138 | a first failing writer that answers a non-200 status without a transport error makes checkCanConnectToWriters return `("", nil)` |
| Health.GoodToGo | handlers.go:111-120 | by `GoodToGoVerdict` and `GoodToGoIgnoresWritersAfterProxyFailure`: 503 when either check fails, checked in order with no writer probed after a proxy failure, and otherwise no status written, so the default 200 applies |
| Health.GoodToGoVerdict | handlers.go:111-120 | the effective status is 200 if and only if both checks pass, and 503 otherwise; 200 is never written explicitly; after a proxy failure no writer is probed |
| Health.GoodToGoIgnoresWritersAfterProxyFailure | handlers.go:112-115 | after a failed proxy check, the writers' answers do not change the 503 response |
| AddressShape.ExtractComponents | main_test.go:27 | an accepted result has protocol `http`, a valid host and port, and renders back to the address |
| AddressShape.ExtractIffMatches | main_test.go:27 | the recogniser accepts exactly the addresses matching the anchored pattern, and then returns their groups |
| AddressShape.RoundTrip | main_test.go:27 | rendering valid components and extracting gives back the same components |
| AddressShape.Decompose | main_test.go:27 | for a colon-free host, `http://host:tail` is accepted if and only if the host is a non-empty run without `:`, `/` or whitespace and the tail is 1 to 5 digits |
| AddressShape.RejectedBeforeHost | main_test.go:27 | an address that differs from `http://` in its first seven characters is rejected |
| AddressShape.AcceptedLocalhost | main_test.go:197-201 | `http://localhost:1` to `http://localhost:12345` give `("http", "localhost", port)` |
| AddressShape.AcceptedDottedHost | main_test.go:202 | `http://com.ft.address:8080` gives `("http", "com.ft.address", "8080")` |
| AddressShape.RejectedScheme | main_test.go:219-228 | the vectors whose scheme is not exactly `http` (`tcp://`, `://`, `//`, no scheme, `:`) are rejected |
| AddressShape.RejectedSeparator | main_test.go:230-234 | the vectors whose separator is not exactly `://` (`http:://`, `http:/`, `http:`) are rejected |
| AddressShape.RejectedEmptyHost | main_test.go:220-224 | `http://:8080` and `http://:` are rejected |
| AddressShape.RejectedPort | main_test.go:221-231 | after `http://localhost:`, a second colon, a missing port, a trailing `/`, a path or a trailing `:` is rejected |

## Findings

| source | as written | input that shows it | evidently intended | confidence | as-written member | corrected member |
|---|---|---|---|---|---|---|
| main.go:191-200 | an unmapped type is sent to `"/" + uuid`; Go's client refuses the path-only URL with a nil response, and `resp.Status` dereferences nil | a message with header `Message-Type: animals`, or with no `Message-Type` header, under any map without that key | a routing miss fails with an error and no request; the test at main_test.go:262-267 demands `""` and some error, and its failure message names the text `No configured writer for concept: <type>`, which the correction adopts | not executed | Routing.UnmappedTypePanics | Routing.SendToConfiguredWriter |

## Left out

- `main()` wiring (main.go:25-99): command-line options, consumer configuration, goroutines, signal handling. It is process plumbing with no decisions. The message-type table (main.go:42-53) is configuration. `createServicesMap` is modelled for any table.
- The HTTP server, router and middleware (main.go:117-163), with `ping` and `buildInfoHandler` (handlers.go:106-108, 144-147), which only write fixed text. The same goes for the `v1a.Check` descriptors (handlers.go:21-41), whose fields are constant text.
- Network calls, `http.NewRequest` and `json.Unmarshal` are oracles. The model does not know which URLs Go's parser rejects or what the network answers. Draining and closing bodies (handlers.go:75-81) is not modelled.
- Logging and `fmt.Printf` (main.go:110, 184-186, 205; handlers.go:67, 73): output only. `readMessage`'s choice between the debug log and the error log follows from whether `err` is nil in the returned outcome.
- Routing.SendToWriter: the `err` that `client.Do` returns on the success path (main.go:201) is not modelled. The model treats any response as coming with a nil transport error.
- Health.CheckProxyConnection: when `client.Do` fails, the model assumes Go returns no response at all.
- The kafka-proxy request's `Host: kafka` header is kept in the request value. The HTTP client it goes through (`httpClient`, handlers.go:71) is not defined in main.go or handlers.go; the oracle stands in for it.
- Consumer streams and concurrency: each message is processed independently and nothing is shared but read-only maps.
- Members used only by the tests and defined in none of main.go, handlers.go and main_test.go (`ingesterService`, `processMessage`, `createWriterMappings`, `createElasticsearchWriterMappings`, `extractAddressComponents`, `resolveWriter`, `createWriteRequest`, `outputMetricsIfRequired`, the metric meters): not part of this model. Only the address pattern itself is modelled.
