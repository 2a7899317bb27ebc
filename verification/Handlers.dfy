/** The ext-proc stream machine as a function of its state: what one message from Envoy does. */
module Handlers {
  import opened Common
  import opened Json
  import opened Messages
  import opened Framework
  import opened Chunking
  import Sse
  import Text

  const CONTENT_LENGTH := "Content-Length"

  /** A message on the stream from Envoy. `trace` holds the headers the active span injects. */
  datatype In =
    | RequestHeaders(headers: seq<(string, string)>, trace: seq<(string, string)>, eos: bool)
    | RequestBody(bytes: Bytes, eos: bool)
    | RequestTrailers
    | ResponseHeaders(headers: seq<(string, string)>, eos: bool)
    | ResponseBody(bytes: Bytes, eos: bool)
    | ResponseTrailers
    | Unrecognized

  datatype HeaderMutation = HeaderMutation(setHeaders: Headers, removeHeaders: set<string>)

  /** A message on the stream back to Envoy. */
  datatype Reply =
    | RequestHeadersReply(mutation: Option<HeaderMutation>, clearRouteCache: bool)
    | RequestBodyReply(chunk: Chunk)
    | RequestTrailersReply
    | ResponseHeadersReply(mutation: Option<HeaderMutation>, clearRouteCache: bool)
    | ResponseBodyReply(chunk: Chunk)
    | ResponseTrailersReply
    | ImmediateResponse(status: int, text: string)

  /** An event for the data layer. */
  datatype Event =
    | RequestEvent(request: Message)
    | ResponseEvent(request: Message, response: Message)

  datatype Server = Server(
    codec: Codec,
    preProcessors: seq<Processor>,
    picker: Option<ProfilePicker>,
    profiles: map<string, Profile>,
    postProcessors: seq<Processor>,
    headersPostProcessors: seq<Processor>)

  /** Running, ended by an immediate response, ended by a gRPC error, or panicked. */
  datatype Status = Running | Replied | Failed | Crashed

  /** The RequestContext the handlers share. */
  datatype Context = Context(
    request: Message,
    response: Message,
    currentChunk: Bytes,
    chunkMutated: bool,
    profile: Profile,
    cycle: CycleState,
    responseHeadersSent: bool)

  /** The context and the locals of the Process loop. */
  datatype State = State(
    ctx: Context,
    requestBody: Bytes,
    responseBody: Bytes,
    requestBodyComplete: bool,
    responseBodyComplete: bool,
    status: Status)

  function Fresh(cycle: CycleState): State {
    State(Context(NewMessage, NewMessage, [], false, EmptyProfile, cycle, false), [], [], false, false, Running)
  }

  /** What a handler did: the new context, the replies to send, events fired, response plugins called. */
  datatype Handled = Handled(
    ctx: Context,
    replies: seq<Reply>,
    events: seq<Event>,
    ran: seq<Invocation>,
    error: Option<Error>)

  function Quiet(c: Context): Handled { Handled(c, [], [], [], None) }
  function Refused(c: Context, e: Error): Handled { Handled(c, [], [], [], Some(e)) }

  // ---------- headers ----------

  function Ingest(h: Headers, incoming: seq<(string, string)>): Headers
    decreases |incoming|
  {
    if incoming == [] then h else Ingest(h[incoming[0].0 := incoming[0].1], incoming[1..])
  }

  function Lowered(incoming: seq<(string, string)>): seq<(string, string)>
    decreases |incoming|
  {
    if incoming == [] then [] else [(Text.ToLower(incoming[0].0), incoming[0].1)] + Lowered(incoming[1..])
  }

  function TraceOps(trace: seq<(string, string)>): seq<Op>
    decreases |trace|
  {
    if trace == [] then [] else [SetHeader(Text.ToLower(trace[0].0), trace[0].1)] + TraceOps(trace[1..])
  }

  function MutationOf(m: Message): HeaderMutation { HeaderMutation(m.mutated, m.removed) }

  /** No mutation field at all when nothing changed. */
  function OptionalMutation(m: Message): Option<HeaderMutation> {
    if m.mutated == map[] && m.removed == {} then None else Some(MutationOf(m))
  }

  function HandleRequestHeaders(
    c: Context, headers: seq<(string, string)>, trace: seq<(string, string)>, eos: bool): Handled
  {
    var ingested := c.request.(headers := Ingest(c.request.headers, Lowered(headers)));
    var request := ApplyAll(ingested, TraceOps(trace));
    var replies := if eos then [RequestHeadersReply(OptionalMutation(request), false)] else [];
    Handled(c.(request := request), replies, [], [], None)
  }

  function HandleResponseHeaders(server: Server, c: Context, headers: seq<(string, string)>, eos: bool): Handled {
    var ingested := c.response.(headers := Ingest(c.response.headers, headers));
    var r := RunProcessors(server.headersPostProcessors, ingested, c.cycle);
    var c' := c.(response := r.message, cycle := r.cycle);
    if r.error.Some? then Refused(c', r.error.value)
    else if !eos then Quiet(c')
    else Handled(c', [ResponseHeadersReply(OptionalMutation(r.message), false)], [], [], None)
  }

  // ---------- request body ----------

  function RequestBodyReplies(body: Bytes): seq<Reply> {
    var chunks := Split(body, true);
    seq(|chunks|, i requires 0 <= i < |chunks| => RequestBodyReply(chunks[i]))
  }

  /** `json.Unmarshal` into an existing map keeps the entries the document does not mention. */
  function Unmarshal(codec: Codec, old_: Object, bytes: Bytes): Option<Object> {
    var d := codec.decode(bytes);
    if d.None? then None else Some(old_ + d.value)
  }

  /** Pre-processors, then the picked profile's plugins; a missing picker is a nil dereference. */
  function RunRequestPipeline(server: Server, c: Context): Handled {
    var pre := RunProcessors(server.preProcessors, c.request, c.cycle);
    var c1 := c.(request := pre.message, cycle := pre.cycle);
    if pre.error.Some? then Refused(c1, pre.error.value)
    else if server.picker.None? then Refused(c1, Error(NilDereference, ""))
    else
      var picked := server.picker.value(pre.message, pre.cycle, server.profiles);
      if picked.profile.None? then
        Refused(c1.(cycle := picked.cycle), Error(Internal, "failed to pick a profile"))
      else
        var r := RunProcessors(picked.profile.value.requestPlugins, pre.message, picked.cycle);
        Handled(c1.(request := r.message, cycle := r.cycle, profile := picked.profile.value), [], [], [], r.error)
  }

  /** The bytes forwarded upstream: the original ones, or the re-printed body once a plugin changed it. */
  function OutgoingBody(codec: Codec, m: Message, original: Bytes): Option<Bytes> {
    if m.bodyMutated then codec.encode(m.body) else Some(original)
  }

  function HandleRequestBody(server: Server, c: Context, bytes: Bytes): Handled {
    var parsed := Unmarshal(server.codec, c.request.body, bytes);
    if parsed.None? then Refused(c, Error(BadRequest, "failed to parse request body")) else
      var h := RunRequestPipeline(server, c.(request := c.request.(body := parsed.value)));
      if h.error.Some? then h else
        var out := OutgoingBody(server.codec, h.ctx.request, bytes);
        if out.None? then Refused(h.ctx, Error(Unknown, "failed to marshal request body")) else
          var request := Apply(h.ctx.request, SetHeader(CONTENT_LENGTH, Text.Itoa(|out.value|)));
          Handled(
            h.ctx.(request := request),
            [RequestHeadersReply(Some(MutationOf(request)), true)] + RequestBodyReplies(out.value),
            [RequestEvent(request)], [], None)
  }

  // ---------- response body ----------

  function ResponseBodyReplies(body: Bytes): seq<Reply> {
    var chunks := Split(body, true);
    seq(|chunks|, i requires 0 <= i < |chunks| => ResponseBodyReply(chunks[i]))
  }

  function PassThrough(c: Context, bytes: Bytes): Handled {
    Handled(c, [ResponseHeadersReply(OptionalMutation(c.response), false)] + ResponseBodyReplies(bytes), [], [], None)
  }

  /** The body as JSON, else as a summarised event stream. */
  function ParseResponse(codec: Codec, old_: Object, bytes: Bytes): Option<Object> {
    var j := Unmarshal(codec, old_, bytes);
    if j.Some? then j else Sse.ParseSse(codec, bytes)
  }

  function HandleResponseBody(server: Server, c: Context, bytes: Bytes): Handled {
    if c.profile.responsePlugins == [] && server.postProcessors == [] then PassThrough(c, bytes) else
      var parsed := ParseResponse(server.codec, c.response.body, bytes);
      if parsed.None? then PassThrough(c, bytes) else
        var r := RunProcessors(
          c.profile.responsePlugins + server.postProcessors, c.response.(body := parsed.value), c.cycle);
        var c1 := c.(response := r.message, cycle := r.cycle);
        if r.error.Some? then Handled(c1, [], [], r.ran, r.error) else
          var out := OutgoingBody(server.codec, r.message, bytes);
          if out.None? then Handled(c1, [], [], r.ran, Some(Error(Unknown, "failed to marshal response body"))) else
            var response := if r.message.bodyMutated
              then Apply(r.message, SetHeader(CONTENT_LENGTH, Text.Itoa(|out.value|))) else r.message;
            Handled(
              c1.(response := response),
              [ResponseHeadersReply(Some(MutationOf(response)), true)] + ResponseBodyReplies(out.value),
              [], r.ran, None)
  }

  /** One streamed chunk, preceded by the deferred headers reply the first time. */
  function StreamChunk(c: Context, bytes: Bytes, eos: bool): Handled {
    var body := [ResponseBodyReply(Chunk(bytes, eos))];
    if c.responseHeadersSent then Handled(c, body, [], [], None)
    else Handled(
      c.(responseHeadersSent := true),
      [ResponseHeadersReply(OptionalMutation(c.response), false)] + body, [], [], None)
  }

  function HandleResponseChunk(c: Context, bytes: Bytes, eos: bool): Handled {
    if c.profile.chunkProcessors == [] then StreamChunk(c, bytes, eos) else
      var r := RunChunkProcessors(c.profile.chunkProcessors, c.response, bytes, false, c.cycle, eos);
      var c1 := c.(response := r.message, cycle := r.cycle, currentChunk := r.chunk, chunkMutated := r.mutated);
      if r.error.Some? then Refused(c1, r.error.value)
      else StreamChunk(c1, if r.mutated then r.chunk else bytes, eos)
  }

  /** The response as the data layer gets it: with a parsed body whenever the bytes allow it. */
  function FinalResponse(codec: Codec, response: Message, responseBody: Bytes): Message {
    if response.body != map[] || responseBody == [] then response else
      var parsed := ParseResponse(codec, response.body, responseBody);
      if parsed.Some? then response.(body := parsed.value) else response
  }

  /** End of the response: fire its event. */
  function CompleteResponse(codec: Codec, h: Handled, responseBody: Bytes): Handled {
    var response := FinalResponse(codec, h.ctx.response, responseBody);
    h.(ctx := h.ctx.(response := response), events := h.events + [ResponseEvent(h.ctx.request, response)])
  }

  // ---------- one turn of the receive loop ----------

  /** The Process loop's own part: what it buffers, and the handler it calls on what. */
  datatype Turn = Turn(state: State, handled: Handled)

  function ReceiveRequestBody(server: Server, s: State, bytes: Bytes, eos: bool): Turn {
    if s.requestBodyComplete then Turn(s, Quiet(s.ctx)) else
      var whole := s.requestBody + bytes;
      if !eos then Turn(s.(requestBody := whole), Quiet(s.ctx))
      else Turn(s.(requestBody := whole, requestBodyComplete := true), HandleRequestBody(server, s.ctx, whole))
  }

  function ReceiveResponseBody(server: Server, s: State, bytes: Bytes, eos: bool): Turn {
    if s.responseBodyComplete then Turn(s, Quiet(s.ctx)) else
      var whole := s.responseBody + bytes;
      var s1 := s.(responseBody := whole, responseBodyComplete := eos);
      if s.ctx.profile.needsResponseBuffering && !eos then Turn(s1, Quiet(s.ctx)) else
        var h := if s.ctx.profile.needsResponseBuffering then HandleResponseBody(server, s.ctx, whole)
          else HandleResponseChunk(s.ctx, bytes, eos);
        Turn(s1, if eos then CompleteResponse(server.codec, h, whole) else h)
  }

  function Dispatch(server: Server, s: State, msg: In): Turn {
    match msg
    case RequestHeaders(headers, trace, eos) => Turn(s, HandleRequestHeaders(s.ctx, headers, trace, eos))
    case RequestBody(bytes, eos) => ReceiveRequestBody(server, s, bytes, eos)
    case RequestTrailers => Turn(s, Handled(s.ctx, [RequestTrailersReply], [], [], None))
    case ResponseHeaders(headers, eos) => Turn(s, HandleResponseHeaders(server, s.ctx, headers, eos))
    case ResponseBody(bytes, eos) => ReceiveResponseBody(server, s, bytes, eos)
    case ResponseTrailers => Turn(s, Handled(s.ctx, [ResponseTrailersReply], [], [], None))
    case Unrecognized => Turn(s, Refused(s.ctx, Error(Unknown, "unknown request type")))
  }

  /** The HTTP status an error is turned into; the other codes end the gRPC stream with an error. */
  function HttpStatus(code: ErrorCode): Option<int> {
    match code
    case BadRequest => Some(400)
    case Unauthorized => Some(401)
    case Forbidden => Some(403)
    case NotFound => Some(404)
    case ResourceExhausted => Some(429)
    case Internal => Some(500)
    case ServiceUnavailable => Some(503)
    case ModelServerError => None
    case Unknown => None
    case NilDereference => None
  }

  function StatusAfter(h: Handled): Status {
    if h.error.None? then Running
    else if h.error.value.code == NilDereference then Crashed
    else if HttpStatus(h.error.value.code).Some? then Replied
    else Failed
  }

  /** An error replaces whatever the handler wanted to send. */
  function RepliesAfter(h: Handled): seq<Reply> {
    if h.error.None? then h.replies
    else if HttpStatus(h.error.value.code).Some? then
      [ImmediateResponse(HttpStatus(h.error.value.code).value, h.error.value.msg)]
    else []
  }

  /** Everything observable about a stream so far. */
  datatype Trace = Trace(state: State, replies: seq<Reply>, events: seq<Event>, ran: seq<Invocation>)

  function Start(cycle: CycleState): Trace { Trace(Fresh(cycle), [], [], []) }

  function Deliver(server: Server, t: Trace, msg: In): Trace {
    if t.state.status != Running then t else
      var turn := Dispatch(server, t.state, msg);
      var h := turn.handled;
      Trace(
        turn.state.(ctx := h.ctx, status := StatusAfter(h)),
        t.replies + RepliesAfter(h), t.events + h.events, t.ran + h.ran)
  }

  function DeliverAll(server: Server, t: Trace, msgs: seq<In>): Trace
    decreases |msgs|
  {
    if msgs == [] then t else DeliverAll(server, Deliver(server, t, msgs[0]), msgs[1..])
  }

  lemma {:induction false} DeliverAllOfConcat(server: Server, t: Trace, a: seq<In>, b: seq<In>)
    ensures DeliverAll(server, t, a + b) == DeliverAll(server, DeliverAll(server, t, a), b)
    decreases |a|
  {
    if a == [] {
      assert a + b == b;
    } else {
      assert (a + b)[1..] == a[1..] + b;
      DeliverAllOfConcat(server, Deliver(server, t, a[0]), a[1..], b);
    }
  }
}
