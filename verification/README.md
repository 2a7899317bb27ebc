# A verified model of the llm-d inference payload processor

The payload processor is an Envoy external processor: for each HTTP stream it receives headers, body chunks and
trailers, runs request and response plugins, chooses a model for the request, and answers Envoy. This project
models its core in Dafny and proves what the parts promise one another:

- **The stream machine** (`Handlers`, `StreamServer`, with `Messages`, `Chunking`, `Sse`, `Framework`). `Handlers`
  says what one message does as a function; `StreamServer.Stream` is the mutable stream whose methods are proved
  to do just that. Over whole streams: the replies are legal (`Protocol`), independent of fragmentation
  (`Fragmentation`), byte-exact with a faithful header delta (`Requests`), what every plugin in turn made of the
  message, in both directions (`Effects`), the same in buffered and streamed mode (`Responses`), and no response
  plugin is skipped (`Lifecycle`).
- **The data layer** (`EventBus`, `ProcessorLifecycle`, `DataLayerProcessor`, `RequestMetadata`, `InFlight`,
  `CostWindows`, `CostExtractor`): delivery through the lossy buffer, exactly-once collectors, conservation of
  in-flight counts across streams, queue and counters, and windowed cost digests.
- **Two indexes against their source** (`AdaptersStore`; `Datastore`, `ModelConfig`, `ModelGroupFilter`).
- **Model selection** (`Ranking`, `Selector`, `ModelSelection`, `InFlightScorer`, `CostScorer`,
  `CostSelection`, `Statistics`, `CostGuard`).
- **The configuration loader** (`ConfigLoader`, `ConfigContents`), whose accepted configurations are proved to hold
  what the file references and to be those the stream machine relies on;
  `ConfigContents.AcceptedConfigsSkipNoPlugin` is the end-to-end statement.

Plugins are function values: given the message and the cycle state they return a list of message operations, a new
cycle state and perhaps an error. JSON is a value type with an uninterpreted decoder and printer; a t-digest is
the multiset of its samples; float64 is `real`; clocks, random draws and map iteration orders are parameters or
arbitrary choices, so what is proved holds for all of them. A "well-ordered stream" is one request-headers
message; unless it ended the request, body chunks up to one end of stream, with duplicates allowed afterwards;
then the response in the same way; trailers only after their direction ended.

Where a promise does not hold of the code, the model keeps the code, shows a case and states the exact condition:

- Over a run of reconciliations the adapter index departs from the API server exactly on an update that changes a
  known ConfigMap's base model or drops an adapter that another ConfigMap lists, a delete that does not carry the
  live base model or whose adapters another ConfigMap lists, an update of a tracked ConfigMap that does not parse,
  and NotFound for a tracked ConfigMap (`AdaptersStore.ReconciledIffGuarded`; every ConfigMap has a name).
- On NotFound the reconciler deletes an unnamed, empty ConfigMap, so nothing is forgotten
  (`AdaptersStore.NotFoundForgetsNothing`).
- A body ended by trailers alone is never flushed, in the request path or in buffered mode
  (`Requests.StreamForwardsIffEnded`, `Responses.ReturnedIffEnded`).
- A request without a body keeps the empty profile, so configured post-processors never see its response
  (`Lifecycle.PostProcessorsRunIffRequestHadBody`).
- `RegisterDatasource` calls `wg.Add` after its unlock, so a data source may start after `Stop` returned
  (`ProcessorLifecycle.DatasourceOutlivesStopIffPending`).
- A `profilePicker` reference that is no picker is logged but not refused; the first usable request body then
  dereferences nil (`ConfigLoader.PickerMissingIffMisnamed`, `ConfigLoader.MissingPickerPanics`).
- A model selector shared by two profiles merges their plugins, and whether a picker in one of them is accepted
  depends on the map's iteration order (`ConfigLoader.OrderDecides`; for which configurations it does not, and which
  load in some order, `ConfigLoader.LoadsInEveryOrderIff`, `ConfigLoader.LoadsInSomeOrderIff`).
- A model selector that is only a pre-processor, or only in a profile that a later one of its name replaces, is
  loaded without a picker and panics on its first candidate (`ConfigLoader.PreProcessorsMayBeSelectors`); any other
  selector's first selection panics exactly when a scorer does (`ConfigLoader.FirstSelection`).
- The comment on `lookupTokenPrices` calls the empty models it leaves in the datastore harmless; they have no
  prices (`ModelConfig.StrayModels`), and a selection by cost panics exactly when at least two models survive the
  filters and one of them is not listed as valid by the last file (`CostSelection.CostSelectionPanicsIff`).
- With two explored models CostGuard's scores are two constants, however far apart the costs are
  (`CostGuard.TwoModels`).
- Lost events and negative `max_tokens` make in-flight load drift, by exactly the lost responses minus the lost
  requests plus what the floors at zero keep back (`InFlight.InFlightDrift`, with
  `RequestMetadata.CounterIsBalanceIffFloorFree`, `InFlight.BufferOverflows` and `InFlight.NegativeTokensLeak`).
- A sync that deletes a model takes the published count with it, and the scorer reads 0 until the model's next event
  (`InFlight.PublishedIffFresh`, `InFlight.ReadersSeeCounterIff`).

## Model

| member | source | states |
|---|---|---|
| `Messages.DeltaIsFaithful` | pkg/framework/interface/requesthandling/types.go:45-67 | after any sequence of header and body operations the set and removed keys are disjoint and, applied to the original headers, give exactly the current headers |
| `Messages.FaithfulInEitherOrder` | pkg/framework/interface/requesthandling/types.go:61-67 | a faithful delta gives the same headers whether Envoy removes first or sets first |
| `Messages.UnmutatedBodyIsOriginal` | pkg/framework/interface/requesthandling/types.go:69-88 | a body flag that is down means that no operation touched the body |
| `Messages.LastHeaderOpDecides` | pkg/framework/interface/requesthandling/types.go:45-59 | after any sequence of operations a header has exactly the value its last operation set, and one that none touched is as before |
| `Messages.LastFieldOpDecides` | pkg/framework/interface/requesthandling/types.go:69-84 | the same for the fields of the body, which replacing the whole body touches too |
| `Messages.FlagIffBodyChanged` | pkg/framework/interface/requesthandling/types.go:69-88 | the body flag is up exactly when some operation found something of the body to change |
| `Messages.InferenceMessage.SetHeader` | pkg/framework/interface/requesthandling/types.go:45-51 | afterwards the header has that value, recorded in the delta unless it had it before, and a faithful message stays faithful |
| `Messages.InferenceMessage.RemoveHeader` | pkg/framework/interface/requesthandling/types.go:53-59 | afterwards the header is gone, recorded in the delta if it was there, and a faithful message stays faithful |
| `Messages.InferenceMessage.SetBody` | pkg/framework/interface/requesthandling/types.go:69-72 | replaces the body and raises the flag |
| `Messages.InferenceMessage.SetBodyField` | pkg/framework/interface/requesthandling/types.go:74-77 | sets one body field, raises the flag and leaves the headers alone |
| `Messages.InferenceMessage.RemoveBodyField` | pkg/framework/interface/requesthandling/types.go:79-84 | removes one body field, raising the flag only if it was there |
| `Chunking.BuildChunkedBodyResponses` | pkg/common/envoy/chunking.go:31-74 | the loop computes the split of the body |
| `Chunking.SplitIsExact` | pkg/common/envoy/chunking.go:31-74 | the chunks join to the body byte for byte, none exceeds the limit, exactly the last one carries the end of stream when asked to, and none is empty unless the body is |
| `Chunking.SplitIsMinimal` | pkg/common/envoy/chunking.go:31-74 | there are as few chunks as the limit allows, and one for an empty body |
| `Text.DecimalOfItoa` | pkg/handlers/request.go:105-123 | the printed length of a body reads back as that length |
| `Text.TrimIsExact` | pkg/framework/plugins/requesthandling/basemodelextractor/adapters_store.go:152-187 | trimming takes away the white space around a text and nothing else |
| `Sse.ParseSseResponseBody` | pkg/handlers/response.go:341-448 | the line loop computes the summary of the body and its result as a JSON object, or nothing |
| `Sse.SummaryIsHomomorphism` | pkg/handlers/response.go:341-448 | the summary of two bodies joined by a newline is the combination of their summaries: last non-empty model and stop reason win, text concatenates, usage merges with the later one winning per key |
| `Sse.CombineAssociates` | pkg/handlers/response.go:341-448 | combining summaries is associative, so that any cut of a body at newlines gives the same result |
| `Sse.NothingIffUninformative` | pkg/handlers/response.go:341-448 | the parser returns nothing exactly when no event line named a model or carried usage |
| `Sse.DataLineIsDecoded` | pkg/handlers/response.go:347-360 | a data line, white space around its parts apart, carries what its data decodes to; the end marker carries nothing |
| `Sse.OtherLinesAreSkipped` | pkg/handlers/response.go:347-351 | a line that is no data line carries nothing |
| `Sse.UsageOfEvent` | pkg/handlers/response.go:398-407 | an event adds the usage at its top level, or else that inside its response |
| `Sse.ModelOfEvent` | pkg/handlers/response.go:362-406 | an event names the model of its response, which counts only without usage at the top level, else that of its message, else that at its top level |
| `Sse.EventContributes` | pkg/handlers/response.go:366-396 | an event adds its delta's text and then the contents of its choices in order; the stop reason is the last non-empty finish reason of its choices, else its delta's |
| `Sse.LineContributes` | pkg/handlers/response.go:341-418 | a body of one line summarises to what its event adds, if it carries one |
| `Sse.LaterWins` | pkg/handlers/response.go:408-417 | in a combination text is joined, and a later model, stop reason or usage field goes before an earlier |
| `Sse.CompositeFields` | pkg/handlers/response.go:420-447 | exactly which fields the composite object has, and their values |
| `Framework.PluginsRunInOrder` | pkg/handlers/response.go:285-336 | each plugin is called once, in list order, up to the first failure, the first of them on the given body; without a failure all are called |
| `Framework.RunProcessorsOfConcat` | pkg/handlers/response.go:69-97 | running the profile plugins and then the post-processors is running one concatenated list |
| `Framework.PluginsKeepDeltaFaithful` | pkg/handlers/request.go:150-202 | whatever a pipeline of plugins does, the header delta stays faithful |
| `Framework.PluginsWithoutMutation` | pkg/handlers/request.go:105-116 | a pipeline that leaves the body flag down left the body as it was |
| `Framework.RunIsChain` | pkg/handlers/request.go:150-202 | running a list of plugins succeeds with an outcome exactly when a chain of calls leads there: one call per plugin in list order, each given what its predecessor's operations and cycle state left |
| `Framework.RunFailsByCall` | pkg/handlers/request.go:167-175 | it fails with an error exactly when some plugin is reached in that way and returns that error |
| `Framework.ChunkRunIsChain` | pkg/handlers/response.go:197-212 | the same for chunk processors, each of which is given the chunk its predecessors left |
| `Protocol.RepliesAreLegal` | pkg/handlers/server.go:192-340 | for every well-ordered input and any plugins: at most one headers reply per direction, before every body reply; nothing of a direction after its end of stream; nothing after an immediate response; and, while running, a direction is ended exactly when Envoy has ended a body there |
| `Protocol.DeliverTracks` | pkg/handlers/server.go:209-340 | every single message keeps the correspondence between how far Envoy has come, the completion flags and how far the replies have come |
| `Protocol.ReadableIsLegal` | pkg/handlers/response.go:216-247 | a reader with three states per direction that never objects accepts only sequences that obey the quantified rules |
| `Fragmentation.FragmentationIndependence` | pkg/handlers/server.go:239-251 | for every input sequence the replies, events, plugin calls and outcome are those of the stream in which the request body comes as one chunk and nothing is re-delivered |
| `Fragmentation.NormalFormIsOneChunk` | pkg/handlers/server.go:239-251 | with the body cut anyhow, ended by a last chunk and repeated anyhow after it, the normal form is every other message in its place and order, with the whole delivered body in one final chunk where the end stood |
| `Fragmentation.AnyCutIsOneChunk` | pkg/handlers/server.go:239-251 | so for all cuts and repetitions replies, events, plugin calls and outcome are those of the same messages with one whole chunk |
| `Requests.RequestIsForwardedExactly` | pkg/handlers/request.go:85-147 | in every running well-ordered stream whose request body ended, the forwarded bytes are the delivered bytes, or the printed final body if a plugin changed it; one headers reply carries a delta from the ingress headers to the request headers with a Content-Length equal to the number of forwarded bytes |
| `Requests.HandlerAnswers` | pkg/handlers/request.go:105-147 | one successful call of the request body handler answers with exactly those headers and bytes |
| `Requests.IngressIsLowerCase` | pkg/handlers/request.go:50-57 | every key taken in from Envoy is lower case, so that none hides a second Content-Length |
| `Requests.UnfinishedBodyIsNeverForwarded` | pkg/handlers/server.go:246-253 | without an end of stream on some request chunk, trailers or not, no byte is forwarded and no request event fires |
| `Requests.ForwardedIffEnded` | pkg/handlers/server.go:246-253 | from any point before the end of the request body, a stream that is still running, ordered or not, has forwarded something of it exactly when some chunk ended it - so a body ended by trailers alone is never forwarded |
| `Requests.StreamForwardsIffEnded` | pkg/handlers/server.go:239-253 | the same from the start of the stream, for every input |
| `Effects.HeadersArrive` | pkg/handlers/request.go:50-61 | once its headers are in, a request has for each lower-cased name the value of the last trace header of that name, else of the last one Envoy sent; its delta is faithful and sets trace headers only |
| `Effects.BodylessRequestIsAnswered` | pkg/handlers/request.go:66-80 | a request without a body is answered at once with that delta |
| `Effects.HandlerRunsEveryPlugin` | pkg/handlers/request.go:85-147 | for every context and body: a body that is no JSON is a bad request; otherwise a chain of calls through every pre-processor, the pick, and every plugin of the picked profile leads to the request forwarded, with its length set, and to the bytes sent; or the error is that of the first failure on this way |
| `Effects.RequestRunsEveryPlugin` | pkg/handlers/server.go:239-253 | the same over every well-ordered stream, from Envoy's headers and chunks to what the upstream has got when the stream is over; a failure ends the stream with the reply for its code and nothing else |
| `Effects.UnrecognizedEndsStream` | pkg/handlers/server.go:311-314 | a message of an unknown kind ends the gRPC stream with an error |
| `Effects.StatusTellsCode` | pkg/common/error/error.go:62-85 | errors of the client's making have a status in the 400s, the server's own in the 500s, each its own; other errors have none |
| `Responses.ModesAgree` | pkg/handlers/response.go:69-192 | two servers that treat requests and response headers alike but run any plugins that do not interfere, buffered or streamed, on the way back: over every well-ordered stream they end alike, fire the very same events, and once the response is over have returned the same bytes under one headers reply with the same delta |
| `Responses.ResponseIsReturnedExactly` | pkg/handlers/server.go:257-308 | every running well-ordered stream whose response has ended, in either mode and however it was cut and repeated, has returned exactly the upstream bytes under a headers reply with the recorded delta, and its last event carries the response with the JSON, else SSE, parse of the whole body |
| `Responses.EndCompletes` | pkg/handlers/server.go:267-307 | the last chunk of a response completes it alike in both modes |
| `Responses.EveryModeOccurs` | pkg/handlers/server.go:267-280 | for every profile that does not interfere, buffering or not, there are such streams that run to the end |
| `Effects.ResponseHeadersArrive` | pkg/handlers/response.go:43-66 | over every well-ordered stream a chain of calls through every header post-processor leads from the last value of each upstream header to the response; without a body it is answered at once with its delta; a failing processor ends the stream |
| `Effects.HandlerReturns` | pkg/handlers/response.go:69-148 | for every context and body, under any plugins: without plugins or a readable body the upstream's bytes go back; otherwise a chain of calls through every response plugin and post-processor leads to the response, whose printed body goes back if the flag is up, else the upstream's bytes; or the error is that of the first failure |
| `Effects.BufferedResponseRunsEveryPlugin` | pkg/handlers/server.go:267-307 | the same over every well-ordered stream whose profile buffers, to what the client has got and the data layer has been told when the stream is over |
| `Effects.ChangedBodyIsAnnounced` | pkg/handlers/response.go:100-129 | the delta sent turns the upstream's headers into the response's; bytes other than the upstream's are the printed final body, and these headers announce their length |
| `Effects.ChunkRunsEveryProcessor` | pkg/handlers/response.go:171-246 | over every stream whose profile streams, under any processors: a chain of calls leads from a received chunk to the one body reply, after the headers reply if still due; the last one tells the data layer; a failure ends the stream |
| `Responses.UnfinishedResponseIsNeverReturned` | pkg/handlers/server.go:267-272 | in buffering mode without an end of stream, trailers or not, no byte of the response body is returned and no response event fires |
| `Responses.ReturnedIffEnded` | pkg/handlers/server.go:267-308 | a running buffered stream has returned something of the response exactly when some chunk ended it |
| `Lifecycle.StreamEvents` | pkg/handlers/server.go:298-307 | a well-ordered stream fires at most one request event and then one response event about the very same request, each exactly when that direction has been handled |
| `Lifecycle.NoResponsePluginIsSkipped` | pkg/handlers/response.go:69-97 | with sound profiles, the end of the response to a request with a body makes the picked profile's plugins and then the post-processors run once each, in order, on the parse of the whole body, up to the first failure, and nothing runs one again |
| `Lifecycle.BodylessRequestsSkipPostProcessors` | pkg/handlers/server.go:257-280 | a request without a body keeps the empty profile, so its response is streamed and no post-processor runs |
| `Lifecycle.PostProcessorsRunIffRequestHadBody` | pkg/handlers/response.go:69-97 | configured post-processors see a parseable response exactly when its request had a body |
| `StreamServer.Stream.Receive` | pkg/handlers/server.go:192-340 | one turn of the receive loop on the mutable stream does what the stream machine says: state, replies, events, plugin calls and outcome |
| `StreamServer.Stream.Handle` | pkg/handlers/server.go:209-314 | the switch on the message kind updates the stream as the machine's dispatch |
| `StreamServer.Stream.ReceiveRequestChunk` | pkg/handlers/server.go:239-251 | chunks accumulate until the first end of stream, later ones are ignored |
| `StreamServer.Stream.ReceiveResponseChunk` | pkg/handlers/server.go:257-308 | buffers or streams by the profile, and completes the response at its end of stream |
| `StreamServer.Stream.FinishResponse` | pkg/handlers/server.go:282-308 | completes the body for the event and fires it |
| `StreamServer.Stream.OnRequestHeaders` | pkg/handlers/request.go:47-82 | ingests lower-cased headers, injects trace headers, and replies only at end of stream |
| `StreamServer.Stream.OnRequestBody` | pkg/handlers/request.go:85-147 | parses, runs pre-processors, picks a profile, runs its plugins, prints if mutated, announces the length, fires the event and re-chunks |
| `StreamServer.Stream.AddStreamedBody` | pkg/handlers/request.go:204-216 | appends one body reply per chunk of the split |
| `StreamServer.Stream.OnResponseHeaders` | pkg/handlers/response.go:43-66 | ingests headers, runs the header post-processors, and defers the reply unless the headers end the stream |
| `StreamServer.Stream.OnResponseBody` | pkg/handlers/response.go:69-130 | the buffered path: pass through what needs no plugin or does not parse, else run the plugins and print if mutated |
| `StreamServer.Stream.PassThroughReplies` | pkg/handlers/response.go:135-145 | headers and the original bytes |
| `StreamServer.Stream.OnResponseChunk` | pkg/handlers/response.go:171-192 | runs the chunk processors on the current chunk and streams the result |
| `StreamServer.Stream.RunChunkPlugins` | pkg/handlers/response.go:197-213 | chunk processors in order, each seeing its predecessors' chunk, up to the first failure |
| `StreamServer.Stream.StreamedChunkReplies` | pkg/handlers/response.go:216-247 | the deferred headers reply once, then the chunk |
| `StreamServer.Stream.RunPlugins` | pkg/handlers/request.go:150-176 | the mutable message, cycle state and call log after the loop are those of the pipeline function |
| `StreamServer.Stream.RunResponsePlugins` | pkg/handlers/response.go:285-310 | profile plugins, then post-processors unless one of the former failed |
| `EventBus.EventsAreDelivered` | pkg/datalayer/processor.go:128-213 | in every interleaving of notifiers, event loop and Stop, with failing extractors or not: arrivals are the notified events in order, the accepted are those that found room in the buffer, and between dispatches every extractor has received the same prefix of the accepted ones, the rest being in the buffer |
| `EventBus.StepConsistent` | pkg/datalayer/processor.go:195-213 | every single step keeps that correspondence |
| `ProcessorLifecycle.CollectorsRunExactlyOnce` | pkg/datalayer/processor.go:96-193 | in every interleaving, once Start returned: each collector registered before Stop's critical section has exactly one polling goroutine with jitter cap at most its frequency, later ones have none, and when Stop returns none is left |
| `ProcessorLifecycle.NothingStartsAfterStop` | pkg/datalayer/processor.go:182-193 | after Stop returned no step launches a collector |
| `ProcessorLifecycle.DatasourceOutlivesStopIffPending` | pkg/datalayer/processor.go:114-125 | a data source can start after Stop returned exactly when a registration was between its unlock and its wg.Add |
| `ProcessorLifecycle.DatasourceCanOutliveStop` | pkg/datalayer/processor.go:114-125 | an interleaving where that happens |
| `DataLayerProcessor.Processor.Notify` | pkg/datalayer/processor.go:128-133 | appends to the buffer, or drops the event when it is full, without touching the lifecycle |
| `DataLayerProcessor.Processor.HandToAll` | pkg/datalayer/processor.go:205-210 | hands one event to every extractor in turn, whatever errors they return |
| `DataLayerProcessor.Processor.DispatchOne` | pkg/datalayer/processor.go:195-213 | takes the oldest event and hands it to every extractor |
| `DataLayerProcessor.Processor.RegisterExtractor` | pkg/datalayer/processor.go:84-91 | adds the extractor unless the processor has started |
| `DataLayerProcessor.Processor.RegisterCollector` | pkg/datalayer/processor.go:96-109 | a non-positive frequency is skipped; otherwise the collector is recorded, and launched at once exactly when the processor has started and not stopped; the lifecycle takes that step |
| `DataLayerProcessor.Processor.StartLocked` | pkg/datalayer/processor.go:137-179 | its critical section succeeds exactly when the processor has neither started nor stopped, and then hands out the collectors registered so far |
| `DataLayerProcessor.Processor.StopLocked` | pkg/datalayer/processor.go:182-193 | its critical section, once Start has returned: the processor is stopped, and the lifecycle remembers which collectors were registered by then |
| `RequestMetadata.RequestMetadataExtractor.Extract` | pkg/framework/plugins/datalayer/requestmetadata/plugin.go:83-126 | after a batch the counters are the fold of its events, every model touched has its count on its attribute map, and no other attribute has changed |
| `RequestMetadata.FloorDecrement` | pkg/framework/plugins/datalayer/requestmetadata/plugin.go:129-134 | exact subtraction, or 0 when that would be negative |
| `RequestMetadata.EventCounts` | pkg/framework/plugins/datalayer/requestmetadata/plugin.go:86-118 | an event with given "model" and "max_tokens" adds one request and these tokens to this model alone, or takes them off down to 0; without a model nothing is counted |
| `RequestMetadata.TokensAreField` | pkg/framework/plugins/datalayer/requestmetadata/plugin.go:97-99 | the tokens are the number under "max_tokens" without its fraction, and 0 when there is none |
| `RequestMetadata.TouchedAreNamed` | pkg/framework/plugins/datalayer/requestmetadata/plugin.go:84-124 | the models published after a batch are exactly those that some event names |
| `RequestMetadata.RequestsNeverNegative` | pkg/framework/plugins/datalayer/requestmetadata/plugin.go:83-134 | whatever events are lost, repeated or reordered, no request count is negative |
| `RequestMetadata.CountersAreBalancePlusShortfalls` | pkg/framework/plugins/datalayer/requestmetadata/plugin.go:83-134 | for every list of events, whatever was lost, repeated or negative, a counter is requests minus responses plus what its floors have kept back |
| `RequestMetadata.CounterIsBalanceIffFloorFree` | pkg/framework/plugins/datalayer/requestmetadata/plugin.go:83-134 | so it never falls below requests minus responses, and equals them exactly when no floor has taken effect on it |
| `InFlight.InFlightDrift` | pkg/framework/plugins/datalayer/requestmetadata/plugin.go:83-134 | the exact law for every run, whatever is lost: what is counted or queued exceeds the open streams by lost responses minus lost requests plus what the floors have kept back |
| `InFlight.InFlightIsConserved` | pkg/framework/plugins/datalayer/requestmetadata/plugin.go:83-134 | in every interleaving of any number of well-ordered streams with the event loop, while nothing was lost: per model, the count plus queued requests minus queued responses equals the number (or token sum) of streams between their request and response events exactly when no floor has taken effect - which it never has on the number, nor on the tokens unless some max_tokens is negative |
| `InFlight.LoadIsCardinality` | pkg/framework/plugins/datalayer/requestmetadata/plugin.go:83-126 | that load, by number, is the cardinality of the set of open streams of the model |
| `InFlight.CountersMatchLedger` | pkg/framework/plugins/datalayer/requestmetadata/plugin.go:83-126 | for every disciplined log a counter is the load of the ledger of open requests |
| `InFlight.DisciplinedIsFloorFree` | pkg/framework/plugins/datalayer/requestmetadata/plugin.go:129-134 | in a disciplined log no floor takes effect on the number of requests, nor on their tokens unless one is negative |
| `InFlight.BalanceIsLoad` | pkg/framework/plugins/datalayer/requestmetadata/plugin.go:83-126 | requests minus responses of a disciplined log is the load of its open requests |
| `InFlight.CountsStayNonNegative` | pkg/framework/plugins/datalayer/requestmetadata/plugin.go:129-134 | with any number of drops the counts of the whole system stay non-negative |
| `InFlight.LostResponsesLeak` | pkg/datalayer/processor.go:128-133 | in every run a model is over-counted by at least the responses lost minus the requests lost, and by exactly that while no floor has taken effect on it |
| `InFlight.LostStaysLost` | pkg/datalayer/processor.go:128-133 | and what is lost stays lost however the run goes on |
| `InFlight.BufferOverflows` | pkg/datalayer/processor.go:128-133 | runs that lose events are reachable: without a dispatch the buffer takes in its size of request events and loses every further one |
| `InFlight.PublishedIffFresh` | pkg/framework/plugins/datalayer/requestmetadata/plugin.go:122-124 | a published count is there exactly when an event of its model was dispatched with no deletion of that model by a sync later in the run, and is then the counter |
| `InFlight.ReadersSeeCounterIff` | pkg/framework/plugins/modelselector/scorer/inflightrequests/plugin.go:96-106 | a reader, for whom a missing count is zero, sees the counter exactly when it is fresh or zero |
| `InFlight.NegativeTokensLeak` | pkg/framework/plugins/datalayer/requestmetadata/plugin.go:104-134 | a negative max_tokens makes the floor take effect and leaves tokens behind when all is quiet |
| `TokenCounts.CountsAreReported` | pkg/framework/plugins/datalayer/requestcostmetadata/plugin.go:327-377 | counts are accepted exactly when the body reports them, both positive, in the first announced of the three formats |
| `CostExtractor.CostChargesEachSide` | pkg/framework/plugins/datalayer/requestcostmetadata/plugin.go:244 | prompt tokens are charged at the input price and completion tokens at the output price, additively, and no cost is negative |
| `CostExtractor.CostIsCharged` | pkg/framework/plugins/datalayer/requestcostmetadata/plugin.go:195-260 | an event adds a cost to a model exactly when it is a response to a request naming it, the model has prices and the response reports positive counts in one of the formats; the cost is theirs |
| `CostExtractor.NamedByResponses` | pkg/framework/plugins/datalayer/requestcostmetadata/plugin.go:195-225 | the models a batch creates are exactly those that the request of some response event names |
| `CostWindows.BatchResetsAtMostOnce` | pkg/framework/plugins/datalayer/requestcostmetadata/plugin.go:246-277 | a batch resets a model's digest at most once, before its first cost, and then adds all its costs |
| `CostWindows.DigestIsWindow` | pkg/framework/plugins/datalayer/requestcostmetadata/plugin.go:189-317 | in every run with a non-decreasing clock the digest is exactly the multiset of the accepted costs since the window start, all inside the half-open window when windowing is on |
| `CostWindows.WithoutWindows` | pkg/framework/plugins/datalayer/requestcostmetadata/plugin.go:251-277 | with windowing off the digest holds every cost ever accepted |
| `CostWindows.ResetsAreSpaced` | pkg/framework/plugins/datalayer/requestcostmetadata/plugin.go:251-277 | a window starts at least a window's length after the previous one |
| `CostWindows.SnapshotWasPublished` | pkg/framework/plugins/datalayer/requestcostmetadata/plugin.go:299-315 | the snapshot on the attribute map is the digest as it was at the last publication |
| `CostWindows.PublicationsAreSpaced` | pkg/framework/plugins/datalayer/requestcostmetadata/plugin.go:299-315 | publications of one model are at least the flush interval apart |
| `CostWindows.PublishedIffRested` | pkg/framework/plugins/datalayer/requestcostmetadata/plugin.go:299-315 | over every clocked run a sample is published exactly when there is no flush interval or nothing was created or published within the interval before it: the snapshot is then the live digest; otherwise snapshot and flush time stay |
| `CostWindows.LastPublication` | pkg/framework/plugins/datalayer/requestcostmetadata/plugin.go:299-315 | until the next publication the flush time is that of the last one |
| `CostExtractor.RequestCostMetadataExtractor.Extract` | pkg/framework/plugins/datalayer/requestcostmetadata/plugin.go:189-317 | for every model at once a batch is one step of that model's run on its accepted costs; all other attributes stay; exactly the named models are added to the datastore |
| `CostExtractor.RequestCostMetadataExtractor.Ingest` | pkg/framework/plugins/datalayer/requestcostmetadata/plugin.go:197-295 | the event loop: the costs accepted per model, in order |
| `CostExtractor.RequestCostMetadataExtractor.Observe` | pkg/framework/plugins/datalayer/requestcostmetadata/plugin.go:198-294 | one event gives at most one sample, for the model it names, when it has prices and usable usage |
| `CostExtractor.RequestCostMetadataExtractor.AddSample` | pkg/framework/plugins/datalayer/requestcostmetadata/plugin.go:246-277 | the window check, then the addition |
| `CostExtractor.RequestCostMetadataExtractor.GetOrCreateAccumulator` | pkg/framework/plugins/datalayer/requestcostmetadata/plugin.go:405-416 | a fresh accumulator starts its window and its flush interval now |
| `CostExtractor.RequestCostMetadataExtractor.FlushOne` | pkg/framework/plugins/datalayer/requestcostmetadata/plugin.go:299-315 | publishes a copy of the digest when the interval has passed, and touches no other model |
| `AdaptersStore.StoreRefinesScan` | pkg/framework/plugins/requesthandling/basemodelextractor/adapters_store.go:67-148 | after every guarded run of adds, updates and deletes each lookup is a direct search over the live ConfigMaps, and each base model's counter is the number of live ConfigMaps using it |
| `AdaptersStore.UpdateAgreesExactly` | pkg/framework/plugins/requesthandling/basemodelextractor/adapters_store.go:67-103 | an update keeps store and live ConfigMaps in agreement exactly when a known ConfigMap keeps its base model and drops only adapters no other one lists |
| `AdaptersStore.DeleteAgreesExactly` | pkg/framework/plugins/requesthandling/basemodelextractor/adapters_store.go:105-132 | a delete keeps the agreement exactly when it carries the live base model and no other ConfigMap lists its adapters |
| `AdaptersStore.AgreesThroughoutIffGuarded` | pkg/framework/plugins/requesthandling/basemodelextractor/adapters_store.go:67-132 | the store on its own, given ConfigMaps that parse: over whole runs of updates and deletes it agrees with the live ConfigMaps all the way exactly when every operation satisfies its guard |
| `AdaptersStore.ReconcileAgreesExactly` | pkg/framework/plugins/requesthandling/basemodelextractor/configmap_reconciler.go:58-80 | one reconciliation, whatever the API server answers, keeps store and server in agreement exactly when its update or delete is within its guard, and NotFound or an object that does not parse is about a ConfigMap that is not tracked |
| `AdaptersStore.ReconcileByAnswer` | pkg/framework/plugins/requesthandling/basemodelextractor/configmap_reconciler.go:65-79 | an object being deleted or no longer managed ends untracked, one that is there and parses ends tracked with its adapters, anything else changes nothing, and other ConfigMaps are left alone |
| `AdaptersStore.ReconciledIffGuarded` | pkg/framework/plugins/requesthandling/basemodelextractor/configmap_reconciler.go:58-80 | for every run of reconciliations from the empty store: it agrees with the API server after each of them exactly when each satisfies that guard |
| `AdaptersStore.LookupIsSearch` | pkg/framework/plugins/requesthandling/basemodelextractor/adapters_store.go:134-148 | in agreement, every lookup is an answer of the search |
| `AdaptersStore.SearchIsDetermined` | pkg/framework/plugins/requesthandling/basemodelextractor/adapters_store.go:134-148 | the search has one answer unless an adapter is listed under two base models |
| `AdaptersStore.ChangedBaseModelIsLost` | pkg/framework/plugins/requesthandling/basemodelextractor/adapters_store.go:92-98 | a ConfigMap that changes its base model: the new one is unknown, the old one lingers |
| `AdaptersStore.RefCountsAreConserved` | pkg/framework/plugins/requesthandling/basemodelextractor/adapters_store.go:79-131 | for every run whose deletes carry some base model the counters add up to the number of tracked ConfigMaps, and every mapped adapter belongs to a tracked ConfigMap's set |
| `AdaptersStore.NotFoundForgetsNothing` | pkg/framework/plugins/requesthandling/basemodelextractor/configmap_reconciler.go:58-80 | reconciling a ConfigMap that is already gone changes nothing, whatever came before |
| `AdaptersStore.ParseConfigMap` | pkg/framework/plugins/requesthandling/basemodelextractor/adapters_store.go:152-187 | refused exactly without a base model or with an adapters section that is no list; otherwise the trimmed base model and exactly the trimmed non-empty names |
| `AdaptersStore.AdaptersStoreImpl.ConfigMapUpdateOrAddIfNotExist` | pkg/framework/plugins/requesthandling/basemodelextractor/adapters_store.go:67-103 | the three maps after the call are those of the update; a ConfigMap that does not parse changes nothing |
| `AdaptersStore.AdaptersStoreImpl.ConfigMapDelete` | pkg/framework/plugins/requesthandling/basemodelextractor/adapters_store.go:105-132 | the three maps after the call are those of the delete |
| `AdaptersStore.AdaptersStoreImpl.LookupBaseModel` | pkg/framework/plugins/requesthandling/basemodelextractor/adapters_store.go:134-148 | the answer is that of the search over any live ConfigMaps the store agrees with |
| `AdaptersStore.AdaptersStoreImpl.ReconcileOne` | pkg/framework/plugins/requesthandling/basemodelextractor/configmap_reconciler.go:58-80 | found, deleting, unmanaged, missing and unparseable ConfigMaps and failed reads lead to the source's update, delete or neither, and the result is an error exactly when the source retries |
| `ModelConfig.ModelConfigDataSource.SyncModels` | pkg/framework/plugins/datalayer/modelconfigcollector/plugin.go:215-302 | refuses a malformed file without any change; otherwise the datastore is exactly in sync |
| `ModelConfig.SyncIsExact` | pkg/framework/plugins/datalayer/modelconfigcollector/plugin.go:215-302 | after a sync the names are exactly the valid entries, each with the price of its last valid entry, its groups, and its other attributes as they were |
| `ModelConfig.InSyncDetermines` | pkg/framework/plugins/datalayer/modelconfigcollector/plugin.go:215-302 | file and kept attributes determine the datastore: being in sync is no weaker than equality |
| `ModelConfig.SyncIsIdempotent` | pkg/framework/plugins/datalayer/modelconfigcollector/plugin.go:215-302 | syncing the same file twice is syncing it once |
| `ModelConfig.SyncForgetsThePast` | pkg/framework/plugins/datalayer/modelconfigcollector/plugin.go:215-302 | names, prices and groups do not depend on what was there before; other attributes survive |
| `ModelConfig.ToTokenPrices` | pkg/framework/interface/datalayer/pricing/pricing.go:63-71 | prices per token times a million are the prices of the file |
| `ModelConfig.MembershipInverts` | pkg/framework/plugins/datalayer/modelconfigcollector/plugin.go:235-248 | a model gets group g exactly when some group named g lists it |
| `ModelConfig.InvertGroups` | pkg/framework/plugins/datalayer/modelconfigcollector/plugin.go:235-248 | the nested loops build exactly the non-empty memberships, in file order |
| `ModelConfig.ModelConfigDataSource.RegisterModels` | pkg/framework/plugins/datalayer/modelconfigcollector/plugin.go:250-275 | the registration loop, and the set of desired names |
| `ModelConfig.ModelConfigDataSource.RemoveUndesired` | pkg/framework/plugins/datalayer/modelconfigcollector/plugin.go:293-299 | removes exactly the models that are not desired |
| `ModelConfig.RunsReflectLastConfig` | pkg/framework/plugins/datalayer/modelconfigcollector/plugin.go:215-302 | over every run of syncs and extractor writes, each listed model has the price of its last valid entry and its groups from the last file, and models it does not list have neither |
| `ModelConfig.StrayModels` | pkg/framework/plugins/datalayer/requestcostmetadata/plugin.go:379-400 | a model recorded by an extractor is in the datastore, without prices exactly when the last file does not list it as valid |
| `ModelGroupFilter.Filter` | pkg/framework/plugins/modelselector/filter/modelgroup/filter.go:98-150 | keeps exactly the candidates that match what the "model" field asks for, in order; a name is kept at most once |
| `ModelGroupFilter.KeptMatch` | pkg/framework/plugins/modelselector/filter/modelgroup/filter.go:98-150 | a candidate is kept exactly when it matches: all, one by name, the members of a group, or none |
| `ModelGroupFilter.KeptByForm` | pkg/framework/plugins/modelselector/filter/modelgroup/filter.go:98-130 | the documented forms of the "model" field: absent, null, empty and "auto" keep all; a name keeps that model; "auto/" and non-strings keep none; "auto/<g>" keeps the members of g |
| `ModelGroupFilter.GroupSelectsExactly` | pkg/framework/plugins/modelselector/filter/modelgroup/filter.go:126-150 | over every run, "auto/<g>" selects exactly the valid models that the last file lists under some group named g |
| `ModelGroupFilter.NarrowsCandidates` | pkg/framework/plugins/modelselector/filter/modelgroup/filter.go:98-150 | the filter returns some of the candidates it is given |
| `Datastore.Store.GetOrCreateModel` | pkg/datastore/inmemory/datastore.go:42-51 | creates only what is missing and disturbs nothing |
| `Datastore.Store.DeleteModel` | pkg/datastore/inmemory/datastore.go:54-58 | removes that model and nothing else |
| `Datastore.Store.GetModels` | pkg/datastore/inmemory/datastore.go:62-72 | every matching model exactly once |
| `Selector.Pipeline.Run` | pkg/modelselector/model_selector_pipeline.go:154-167 | nothing left is a ResourceExhausted error; it panics exactly when something survives and there is no picker or a scorer panics on the survivors; with the max-score picker the model chosen passed the filters and no survivor has a greater weighted sum of clamped scores, whatever the map order, shuffle and scorers |
| `Selector.Pipeline.AddPlugins` | pkg/modelselector/model_selector_pipeline.go:93-128 | succeeds exactly when every scorer is weighted and there is at most one picker altogether; all filters, scorers and the picker are added in order, or nothing changes |
| `Selector.Validate` | pkg/modelselector/model_selector_pipeline.go:94-119 | the validation loop decides that without changing anything |
| `Selector.ElementsAreSorted` | pkg/modelselector/model_selector_pipeline.go:94-126 | AddPlugins takes every filter, every weighted scorer and every picker among its arguments, in order |
| `Selector.Pipeline.RunFilterPlugins` | pkg/modelselector/model_selector_pipeline.go:169-217 | the loop with its early exit computes the survivors |
| `Selector.SurvivorsPassEveryFilter` | pkg/modelselector/model_selector_pipeline.go:169-217 | for filters that narrow, the early exit is unobservable and a model survives exactly when it is in the result of every filter |
| `Selector.SurvivorsAreLastStage` | pkg/modelselector/model_selector_pipeline.go:169-217 | for any filters whatever, what survives is what all filters in turn leave, or nothing once one leaves nothing |
| `Selector.Pipeline.RunScorerPlugins` | pkg/modelselector/model_selector_pipeline.go:219-278 | panics exactly when some scorer does; otherwise one total per surviving model: the sum over the scorers of weight times clamped score |
| `Selector.Pipeline.Accumulate` | pkg/modelselector/model_selector_pipeline.go:266-270 | one scorer's map, visited in any order, adds its contribution to each total once |
| `Selector.Pipeline.Listed` | pkg/modelselector/model_selector_pipeline.go:290-295 | the slice handed to the picker holds each scored model once, in some order |
| `Selector.EnforceScoreRange` | pkg/modelselector/model_selector_pipeline.go:321-329 | scores below 0 become 0, above 1 become 1, and others stay |
| `Selector.TotalOfConcat` | pkg/modelselector/model_selector_pipeline.go:244-274 | totals add up over the list of scorers: none is left out and their order does not matter |
| `Selector.ContributionIsWeighted` | pkg/modelselector/model_selector_pipeline.go:260-272 | one scorer adds weight times its clamped score, and nothing to a model it gives none |
| `Selector.RaisedScoreRaisesTotal` | pkg/modelselector/model_selector_pipeline.go:244-274 | wherever a scorer stands, a score d higher within [0, 1] raises the total by weight times d |
| `Selector.TotalsAreBounded` | pkg/modelselector/model_selector_pipeline.go:219-278 | with non-negative weights every total lies between 0 and the sum of the weights |
| `Selector.OneScorerDecides` | pkg/modelselector/model_selector_pipeline.go:219-329 | with a single scorer of positive weight a best total is a best clamped score |
| `ModelSelection.ModelSelectorPlugin.Select` | pkg/framework/plugins/requesthandling/modelselector/plugin.go:80-89 | an empty datastore is an error; otherwise the datastore's models, each once, go to the pipeline, which panics exactly when something survives and there is no picker or a scorer panics; with the max-score picker the model chosen is a survivor with the greatest total, and one of the datastore |
| `Ranking.PickMaxScore` | pkg/framework/plugins/modelselector/picker/maxscore/picker.go:69-89 | the slice becomes a permutation of itself, sorted after the shuffle, and the pick has the best score |
| `Ranking.SortStable` | pkg/framework/plugins/modelselector/picker/maxscore/picker.go:78-86 | the in-place sort computes the stable sort |
| `Ranking.StableSortSorts` | pkg/framework/plugins/modelselector/picker/maxscore/picker.go:78-86 | the stable sort is the descending permutation that keeps equal scores in order |
| `Ranking.HeadIsFirstBest` | pkg/framework/plugins/modelselector/picker/maxscore/picker.go:78-88 | the pick is the first of the best in shuffled order |
| `Ranking.RankedHeadIsBest` | pkg/framework/plugins/modelselector/picker/maxscore/picker.go:75-88 | over all draws of the generator the possible picks are exactly the models with the best score |
| `Ranking.ShuffleScoredModels` | pkg/framework/plugins/modelselector/picker/common.go:58-62 | the in-place swaps compute the Fisher-Yates shuffle for the given draws |
| `Ranking.ShufflePermutes` | pkg/framework/plugins/modelselector/picker/common.go:58-62 | the shuffle is a permutation |
| `ConfigLoader.LoadConfiguration` | pkg/config/loader/configloader.go:48-119 | a configuration loads exactly when its parts can be assembled and its selectors wired in the order the profile map is visited, each profile at most once; then it is the configuration the file describes, and a model selector has a picker exactly when a profile that stays in the map names it, being otherwise left empty |
| `ConfigLoader.Assemble` | pkg/config/loader/configloader.go:48-100 | accepted configurations are what the file describes, refused ones cannot be assembled in any way |
| `ConfigLoader.BuildProfiles` | pkg/config/loader/configloader.go:213-284 | accepted exactly when there is a profile and each is acceptable; later profiles replace earlier ones of their name |
| `ConfigLoader.BuildProfile` | pkg/config/loader/configloader.go:221-280 | accepted exactly when named, non-empty, all references fit and the response list is homogeneous; then it is that profile |
| `ConfigLoader.BuildRequestPlugins` | pkg/config/loader/configloader.go:233-258 | processors, weighted selection plugins and model selectors in file order |
| `ConfigLoader.BuildResponsePlugins` | pkg/config/loader/configloader.go:260-274 | whole-body and chunk processors in file order |
| `ConfigContents.ProfileMirrorsFile` | pkg/config/loader/configloader.go:213-284 | each of the five lists of a loaded profile holds one entry for each reference of the last profile of its name in the file that asks for one, in file order; it buffers exactly when a reference there or among the post-processors names a whole-body processor |
| `ConfigContents.ProcessorsMirrorFile` | pkg/config/loader/configloader.go:286-338 | the same for pre-processors, whole-body post-processors and header post-processors |
| `ConfigLoader.BuildPreProcessors` | pkg/config/loader/configloader.go:286-306 | accepted exactly when every reference is a RequestProcessor; one per reference, in order |
| `ConfigLoader.BuildPostProcessors` | pkg/config/loader/configloader.go:308-337 | accepted exactly when every reference is a body or header processor; both lists in file order |
| `ConfigLoader.ForceBuffering` | pkg/config/loader/configloader.go:89-100 | refuses exactly when a profile has chunk processors; otherwise every profile buffers and is otherwise unchanged |
| `ConfigLoader.ApplyPluginDefaults` | pkg/config/loader/defaults.go:73-103 | the picker is the one named, else the only one there is, else a default for a single profile, else an error |
| `ConfigLoader.Sole` | pkg/framework/plugins/requesthandling/profilepicker/single/single_profile_picker.go:65-77 | the profile picked is the one given, and there is one exactly when one is given |
| `ConfigLoader.BuildModelSelector` | pkg/config/loader/configloader.go:342-358 | for the order in which the map was visited, a part of the profiles without repetition: succeeds exactly when the uses can be wired, then having visited all, and leaves the pipelines as wired |
| `ConfigLoader.SelectorsAreWiredExactly` | pkg/config/loader/configloader.go:342-358 | each model selector ends with exactly the filters and scorers meant for it, merged over the profiles that share it, and with its picker or the max-score one |
| `ConfigLoader.SelectorHasPickerIffListed` | pkg/config/loader/configloader.go:342-358 | after a load a model selector has a picker exactly when some profile lists it, and is otherwise as its factory made it |
| `ConfigLoader.PreProcessorsMayBeSelectors` | pkg/config/loader/configloader.go:286-306 | any model selector can be added to the pre-processors of an accepted configuration, which stays accepted, without thereby being named by a profile |
| `ConfigLoader.FirstSelection` | pkg/config/loader/configloader.go:342-358 | the first selection after a load panics exactly when the datastore has a model and no profile that stays in the map names the selector, or a scorer of its pipeline panics on the survivors |
| `ConfigLoader.WiringAccepted` | pkg/config/loader/configloader.go:342-358 | accepted exactly when all scorers are weighted, the first use of a selector brings at most one picker, and later uses none |
| `ConfigLoader.OrderAccepted` | pkg/config/loader/configloader.go:342-358 | a visiting order is accepted exactly when each profile is consistent in itself and, if it brings a picker, shares no selector with a profile before it |
| `ConfigLoader.LoadsInEveryOrderIff` | pkg/config/loader/configloader.go:342-358 | every order is accepted exactly when each profile is consistent in itself - scorers weighted, at most one picker, and then each selector listed once - and no profile with a picker shares a selector with another profile |
| `ConfigLoader.LoadsInSomeOrderIff` | pkg/config/loader/configloader.go:342-358 | some order is accepted exactly when each profile is consistent in itself and no two profiles with pickers share a selector |
| `ConfigLoader.OrderDecides` | pkg/config/loader/configloader.go:342-358 | two profiles sharing a selector, one with a picker: accepted in one map order and refused in the other |
| `ConfigLoader.AcceptedProfilesAreSound` | pkg/config/loader/configloader.go:89-100 | no accepted profile mixes body and chunk processors, and each buffers whenever it or a post-processor needs the whole body |
| `ConfigLoader.AcceptedServersAreSound` | pkg/config/loader/configloader.go:89-119 | hence every server of an accepted configuration meets what the stream machine relies on |
| `ConfigContents.AcceptedConfigsSkipNoPlugin` | pkg/config/loader/configloader.go:260-280 | from file to stream: for every accepted configuration one plugin for each reference of the picked profile that names a whole-body processor, and then one for each such post-processor, have run once each, in file order, on the parse of the whole response, up to the first failure |
| `ConfigLoader.PickerMissingIffMisnamed` | pkg/config/loader/configloader.go:64-75 | a loaded configuration has no picker exactly when the file names something that is none: the error is logged but overwritten |
| `ConfigLoader.MissingPickerPanics` | pkg/handlers/request.go:92-99 | without a picker, a request body that parses and passes the pre-processors panics |
| `InFlightScorer.Score` | pkg/framework/plugins/modelselector/scorer/inflightrequests/plugin.go:67-92 | scores lie in [0, 1] and strictly reverse the counts; some model scores 1 and, if counts differ, some scores 0 |
| `InFlightScorer.ScoreIsShare` | pkg/framework/plugins/modelselector/scorer/inflightrequests/plugin.go:83-92 | a score is the share of the way from the most to the least loaded model, and 1 when all are equal |
| `InFlightScorer.LeastLoadedWins` | pkg/framework/plugins/modelselector/scorer/inflightrequests/plugin.go:67-92 | alone in a pipeline with a positive weight, a model with a best total has a least count among the survivors |
| `InFlightScorer.Extremes` | pkg/framework/plugins/modelselector/scorer/inflightrequests/plugin.go:68-81 | the loop finds the least and the greatest count |
| `CostScorer.Score` | pkg/framework/plugins/modelselector/scorer/costaware/plugin.go:81-115 | panics exactly when there are several models and one has no prices; 1/2 for one model, else 1 - price / sum, or 1 when the sum is 0 |
| `CostScorer.ScoresAddUp` | pkg/framework/plugins/modelselector/scorer/costaware/plugin.go:107-112 | the scores of n >= 2 models add up to n - 1 unless the prices add up to 0 |
| `CostScorer.ScoresReversePrices` | pkg/framework/plugins/modelselector/scorer/costaware/plugin.go:91-115 | for non-negative prices the scores lie in [0, 1] and, unless all are 0, strictly reverse the prices |
| `CostScorer.ScoresDifferAsPrices` | pkg/framework/plugins/modelselector/scorer/costaware/plugin.go:91-115 | scores differ as the prices do, reversed and in units of the sum, which with what they add up to fixes them; with a sum of 0 all score 1 |
| `CostScorer.CheapestWins` | pkg/framework/plugins/modelselector/scorer/costaware/plugin.go:81-115 | alone in a pipeline with a positive weight and non-negative prices, a model with a best total has a least price among the survivors |
| `CostSelection.PricedIffDesired` | pkg/framework/plugins/modelselector/scorer/costaware/plugin.go:91-97 | over every run of syncs and extractor writes the cost scorer finds a price exactly for the models the last file lists as valid: the input price of the last valid entry per token |
| `CostSelection.CostSelectionPanicsIff` | pkg/framework/plugins/modelselector/scorer/costaware/plugin.go:81-115 | over every run of syncs and extractor writes: with a picker and no other scorer that panics, a selection by cost panics exactly when at least two models survive the filters and one of them is not listed as valid by the last file |
| `CostSelection.SelectByCost` | pkg/framework/plugins/requesthandling/modelselector/plugin.go:80-89 | the same of the plugin on its datastore |
| `CostGuard.Exploit` | pkg/framework/plugins/modelselector/scorer/costguard/plugin.go:188-235 | every model gets its score, neutral for under-explored models and in the degenerate cases |
| `CostGuard.NeutralCases` | pkg/framework/plugins/modelselector/scorer/costguard/plugin.go:193-225 | a model without enough samples scores 1/2, and so do all models when the explored ones are fewer than two or rank alike |
| `CostGuard.Explore` | pkg/framework/plugins/modelselector/scorer/costguard/plugin.go:241-260 | one model scores 1, an under-explored one if there is any, all others are neutral |
| `CostGuard.PromotedWins` | pkg/framework/plugins/modelselector/scorer/costguard/plugin.go:241-260 | alone in a pipeline with a positive weight, an exploring call makes the promoted model the only winner |
| `CostGuard.TailWeighsIn` | pkg/framework/plugins/modelselector/scorer/costguard/plugin.go:212-219 | the tail counts lambda times: not at all for 0, otherwise a dearer tail ranks higher |
| `CostGuard.RanksDiffer` | pkg/framework/plugins/modelselector/scorer/costguard/plugin.go:212-219 | two ranks differ by the difference of the body means plus lambda times that of the tail means |
| `CostGuard.AffineInvariance` | pkg/framework/plugins/modelselector/scorer/costguard/plugin.go:188-235 | a positive affine change of all ranks changes no score |
| `CostGuard.CheaperScoresHigher` | pkg/framework/plugins/modelselector/scorer/costguard/plugin.go:221-234 | a cheaper model never scores below a dearer one, and scores strictly above it unless all ranks agree |
| `CostGuard.ExploitIsMonotone` | pkg/framework/plugins/modelselector/scorer/costguard/plugin.go:188-235 | on models: every score is strictly between 0 and 1, and of two explored models the cheaper never scores lower |
| `CostGuard.LowestRankWins` | pkg/framework/plugins/modelselector/scorer/costguard/plugin.go:188-235 | alone in a pipeline with a positive weight, an exploiting call gives an explored model a best total among the explored ones only if none of them ranks lower |
| `CostGuard.HalfScoreEachSide` | pkg/framework/plugins/modelselector/scorer/costguard/plugin.go:221-234 | at least half of the explored models score 1/2 or more and at least half 1/2 or less |
| `CostGuard.TwoModels` | pkg/framework/plugins/modelselector/scorer/costguard/plugin.go:221-234 | two explored models of different cost always score sigmoid(-1) and sigmoid(1), which add up to 1, however far apart they are |
| `CostGuard.SigmaZeroIffEqual` | pkg/framework/plugins/modelselector/scorer/costguard/plugin.go:283-298 | the standard deviation is 0 exactly when all ranks agree |
| `CostGuard.StddevPop` | pkg/framework/plugins/modelselector/scorer/costguard/plugin.go:283-298 | the two loops compute the root of the population variance |
| `CostGuard.ThresholdIsLeast` | pkg/framework/plugins/modelselector/scorer/costguard/plugin.go:143-153 | the sample threshold is positive and the least number of samples whose Wald half-width is at most the margin |
| `CostGuard.ExploredIffEnough` | pkg/framework/plugins/modelselector/scorer/costguard/plugin.go:143-153 | with the constructor's threshold a model is explored exactly when it has a digest whose sample count brings the squared half-width down to the squared margin |
| `Statistics.MedianHalves` | pkg/framework/plugins/modelselector/scorer/costguard/plugin.go:270-278 | at least half of the ranks are at most the median and at least half are at least it |
| `Statistics.MedianScales` | pkg/framework/plugins/modelselector/scorer/costguard/plugin.go:270-278 | the median follows every positive affine change |
| `Statistics.VarianceScales` | pkg/framework/plugins/modelselector/scorer/costguard/plugin.go:283-298 | the variance follows an affine change by the square of its factor |
| `Statistics.VarianceZeroIffEqual` | pkg/framework/plugins/modelselector/scorer/costguard/plugin.go:283-298 | the variance is never negative, and 0 exactly when all elements agree |
| `Statistics.SortedSorts` | pkg/framework/plugins/modelselector/scorer/costguard/plugin.go:271-272 | the sort is the ascending permutation |

## Left out

- Random and weighted-random pickers: their point is a probability distribution; only the shuffle is modelled.
- The session-affinity scorer, body-field and model-to-header plugins, plugin factories and their parameters.
- gRPC, TLS, certificates, health, metrics, logging and span creation; the trace headers a span injects are an input.
- Failed sends and receive errors: a stream ends when its input ends.
- JSON, YAML and Kubernetes decoding: uninterpreted partial functions. A JSON `null` body and a body that a failing
  `json.Unmarshal` has filled in part are not represented.
- Floating point rounding, NaN and infinities; int64 overflow of counters; the t-digest's approximation, its
  trimmed means and its errors; `math.Exp` and `math.Sqrt` enter through their defining laws.
- Unicode case folding and white space: only ASCII.
- Plugins that write the exported header and body maps directly instead of through the tracked operations.
- Filters and scorers that write the cycle state; outside information that plugins consult is part of the initial
  cycle state.
- Models as objects: a model is its name. A model object kept after its deletion from the datastore is not tracked.
- Locks: each critical section is one step. `syncModels` and one batch of an extractor are one step each.
- Real time: tickers, debouncing and jitter values; clocks are non-decreasing integers.
- DataLayerProcessor.Processor.StopLocked: one Stop, issued after Start returned; a Stop before or during Start and a
  second Stop are not modelled, and the data sources' own loops are only counted.
- File watching: `syncModels` gets the bytes of the file, a missing file being empty.
- The loader's decoding, plugin instantiation and registration with the data layer, which precede or follow the
  parts modelled and do not affect profiles.
- The error table: only which codes become an HTTP status.
- Score of CostGuard: the draw that chooses between exploring and exploiting.
- The model-selector request plugin writing the chosen name to the body and the cycle state; the route-cache flag and
  an empty header mutation, in which buffered and streamed answers may differ.
