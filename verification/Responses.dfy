/** What comes back: the response a client gets is the upstream's, whether it is buffered or streamed. */
module Responses {
  import opened Common
  import opened Json
  import opened Messages
  import opened Framework
  import opened Chunking
  import opened Handlers
  import opened Protocol
  import opened Fragmentation
  import opened Requests
  import Sse

  // ---------- plugins that do not interfere ----------

  /** Plugins that neither change the message nor fail. */
  ghost predicate Harmless(plugins: seq<Processor>) {
    forall i, m, c :: 0 <= i < |plugins| ==> plugins[i].run(m, c).ops == [] && plugins[i].run(m, c).error.None?
  }

  ghost predicate HarmlessOnChunks(plugins: seq<ChunkProcessor>) {
    forall i, m, b, c, f :: 0 <= i < |plugins| ==>
      var o := plugins[i].run(m, b, c, f);
      o.ops == [] && o.chunk.None? && o.error.None?
  }

  predicate IsHeaderOp(op: Op) { op.SetHeader? || op.RemoveHeader? }

  /** Plugins that may change headers, and fail, but leave bodies alone. */
  ghost predicate HeadersOnly(plugins: seq<Processor>) {
    forall i, m, c, k :: 0 <= i < |plugins| && 0 <= k < |plugins[i].run(m, c).ops| ==>
      IsHeaderOp(plugins[i].run(m, c).ops[k])
  }

  /** Nothing that a profile runs on the way back interferes, in the mode it runs in. */
  ghost predicate HarmlessProfile(server: Server, p: Profile) {
    if p.needsResponseBuffering then Harmless(p.responsePlugins + server.postProcessors)
    else HarmlessOnChunks(p.chunkProcessors)
  }

  /** No profile that can be picked interferes with responses. An empty document is no JSON. */
  ghost predicate HarmlessServer(server: Server) {
    && server.codec.decode([]).None?
    && HeadersOnly(server.headersPostProcessors)
    && (server.picker.Some? ==> forall m, c ::
          var k := server.picker.value(m, c, server.profiles);
          k.profile.Some? ==> HarmlessProfile(server, k.profile.value))
  }

  lemma {:induction false} HarmlessRun(plugins: seq<Processor>, m: Message, c: CycleState)
    requires Harmless(plugins)
    ensures RunProcessors(plugins, m, c).message == m && RunProcessors(plugins, m, c).error.None?
    decreases |plugins|
  {
    if plugins != [] {
      HarmlessRun(plugins[1..], m, plugins[0].run(m, c).cycle);
    }
  }

  lemma {:induction false} HarmlessChunkRun(
    plugins: seq<ChunkProcessor>, m: Message, chunk: Bytes, c: CycleState, isFinal: bool)
    requires HarmlessOnChunks(plugins)
    ensures var r := RunChunkProcessors(plugins, m, chunk, false, c, isFinal);
            r.message == m && r.error.None? && !r.mutated
    decreases |plugins|
  {
    if plugins != [] {
      HarmlessChunkRun(plugins[1..], m, chunk, plugins[0].run(m, chunk, c, isFinal).cycle, isFinal);
    }
  }

  lemma {:induction false} HeaderOpsKeepBody(m: Message, ops: seq<Op>)
    requires forall k :: 0 <= k < |ops| ==> IsHeaderOp(ops[k])
    ensures ApplyAll(m, ops).body == m.body && ApplyAll(m, ops).bodyMutated == m.bodyMutated
    decreases |ops|
  {
    if ops != [] {
      HeaderOpsKeepBody(Apply(m, ops[0]), ops[1..]);
    }
  }

  lemma {:induction false} HeadersOnlyRun(plugins: seq<Processor>, m: Message, c: CycleState)
    requires HeadersOnly(plugins)
    ensures var r := RunProcessors(plugins, m, c).message; r.body == m.body && r.bodyMutated == m.bodyMutated
    decreases |plugins|
  {
    if plugins != [] {
      var o := plugins[0].run(m, c);
      HeaderOpsKeepBody(m, o.ops);
      if o.error.None? {
        HeadersOnlyRun(plugins[1..], ApplyAll(m, o.ops), o.cycle);
      }
    }
  }

  // ---------- what a client and the data layer see of a response ----------

  /** The response body a stream delivers: its chunks up to the first end of stream. */
  function DeliveredResponse(msgs: seq<In>): Bytes
    decreases |msgs|
  {
    if msgs == [] then []
    else if !msgs[0].ResponseBody? then DeliveredResponse(msgs[1..])
    else if msgs[0].eos then msgs[0].bytes
    else msgs[0].bytes + DeliveredResponse(msgs[1..])
  }

  /** The header delta a headers reply asks Envoy to apply; no mutation field means no change. */
  function Delta(reply: Reply): HeaderMutation
    requires reply.ResponseHeadersReply?
  {
    if reply.mutation.Some? then reply.mutation.value else HeaderMutation(map[], {})
  }

  /** Every response headers reply carries this delta. */
  ghost predicate AnswersWith(replies: seq<Reply>, delta: HeaderMutation) {
    forall i :: 0 <= i < |replies| && replies[i].ResponseHeadersReply? ==> Delta(replies[i]) == delta
  }

  /** The whole body as JSON, else as a summarised event stream, else nothing. */
  function ParsedBody(codec: Codec, bytes: Bytes): Object {
    var parsed := ParseResponse(codec, map[], bytes);
    if parsed.Some? then parsed.value else map[]
  }

  /** The replies carry these bytes back, under this header delta. */
  ghost predicate Carries(replies: seq<Reply>, bytes: Bytes, delta: HeaderMutation) {
    Payload(false, replies) == bytes && AnswersWith(replies, delta)
  }

  /** The response has been returned: bytes, header delta, and as the last event the response with its body
      parsed if it can be. */
  ghost predicate Returned(codec: Codec, bytes: Bytes, t: Trace) {
    var c := t.state.ctx;
    && Carries(t.replies, bytes, MutationOf(c.response))
    && c.response.body == ParsedBody(codec, bytes)
    && t.events != [] && t.events[|t.events| - 1] == ResponseEvent(c.request, c.response)
  }

  /** Where a running stream in phase p stands with its response, `received` being what has come of it. */
  ghost predicate Returning(server: Server, p: Phase, received: Bytes, t: Trace) {
    var c := t.state.ctx;
    && HarmlessProfile(server, c.profile)
    && !c.response.bodyMutated
    && t.state.responseBody == received
    && (!p.ResponseClosed? ==> c.response.body == map[])
    && (p.ResponseOpen? && !c.profile.needsResponseBuffering ==> Carries(t.replies, received, MutationOf(c.response)))
    && (p.ResponseClosed? && p.responseBody ==> Returned(server.codec, received, t))
  }

  // ---------- messages that are not the response's ----------

  ghost predicate NoResponseReply(replies: seq<Reply>) {
    forall i :: 0 <= i < |replies| ==> !IsHeaders(false, replies[i]) && !IsBody(false, replies[i])
  }

  lemma {:induction false} NoResponsePayload(replies: seq<Reply>)
    requires NoResponseReply(replies)
    ensures Payload(false, replies) == []
  {
    if replies != [] {
      NoResponsePayload(replies[..|replies| - 1]);
    }
  }

  lemma ForeignReplies(replies: seq<Reply>, more: seq<Reply>, bytes: Bytes, delta: HeaderMutation)
    requires Carries(replies, bytes, delta) && NoResponseReply(more)
    ensures Carries(replies + more, bytes, delta)
  {
    PayloadOfConcat(false, replies, more);
    NoResponsePayload(more);
  }

  lemma PickIsHarmless(server: Server, c: Context, bytes: Bytes)
    requires HarmlessServer(server) && HarmlessProfile(server, c.profile)
    ensures HarmlessProfile(server, HandleRequestBody(server, c, bytes).ctx.profile)
  {
    var parsed := Unmarshal(server.codec, c.request.body, bytes);
    if parsed.Some? {
      var start := c.request.(body := parsed.value);
      var pre := RunProcessors(server.preProcessors, start, c.cycle);
      if pre.error.None? && server.picker.Some? {
        var k := server.picker.value(pre.message, pre.cycle, server.profiles);
        assert k.profile.Some? ==> HarmlessProfile(server, k.profile.value);
      }
    }
  }

  lemma PipelineLeavesResponse(server: Server, c: Context)
    ensures RunRequestPipeline(server, c).ctx.response == c.response
  {
  }

  lemma RequestBodyLeavesResponse(server: Server, c: Context, bytes: Bytes)
    ensures var h := HandleRequestBody(server, c, bytes);
            h.ctx.response == c.response && NoResponseReply(h.replies)
  {
    var parsed := Unmarshal(server.codec, c.request.body, bytes);
    if parsed.Some? {
      PipelineLeavesResponse(server, c.(request := c.request.(body := parsed.value)));
    }
  }

  /** The request's messages, and trailers, leave the response alone. */
  lemma ResponseIsUntouched(server: Server, s: State, msg: In)
    requires !msg.ResponseHeaders? && !msg.ResponseBody?
    requires HarmlessServer(server) && HarmlessProfile(server, s.ctx.profile)
    ensures var turn := Dispatch(server, s, msg);
            && turn.handled.ctx.response == s.ctx.response
            && turn.state.responseBody == s.responseBody
            && NoResponseReply(turn.handled.replies)
            && HarmlessProfile(server, turn.handled.ctx.profile)
            && (!(msg.RequestBody? && !s.requestBodyComplete) ==> turn.handled.ctx.profile == s.ctx.profile)
  {
    match msg
    case RequestBody(bytes, _) =>
      PickIsHarmless(server, s.ctx, s.requestBody + bytes);
      RequestBodyLeavesResponse(server, s.ctx, s.requestBody + bytes);
    case RequestHeaders(headers, trace, eos) => assert NoResponseReply(Dispatch(server, s, msg).handled.replies);
    case _ =>
  }

  /** Once the response has begun. */
  lemma LateStep(server: Server, p: Phase, received: Bytes, t: Trace, msg: In)
    requires HarmlessServer(server) && Tracks(p, t) && Returning(server, p, received, t)
    requires t.state.status == Running && Advance(p, msg).Some? && (p.ResponseOpen? || p.ResponseClosed?)
    requires !msg.ResponseHeaders? && !msg.ResponseBody?
    ensures Returning(server, Advance(p, msg).value, received, Deliver(server, t, msg))
  {
    ResponseIsUntouched(server, t.state, msg);
    var h := Dispatch(server, t.state, msg).handled;
    SettledRequest(server, t.state, msg);
    assert t.events + [] == t.events;
    if Carries(t.replies, received, MutationOf(t.state.ctx.response)) {
      ForeignReplies(t.replies, h.replies, received, MutationOf(t.state.ctx.response));
    }
  }

  lemma OtherStep(server: Server, p: Phase, received: Bytes, t: Trace, msg: In)
    requires HarmlessServer(server) && Tracks(p, t) && Returning(server, p, received, t)
    requires t.state.status == Running && Advance(p, msg).Some?
    requires !msg.ResponseHeaders? && !msg.ResponseBody?
    ensures var t' := Deliver(server, t, msg);
            t'.state.status == Running ==> Returning(server, Advance(p, msg).value, received, t')
  {
    if p.ResponseOpen? || p.ResponseClosed? {
      LateStep(server, p, received, t, msg);
    } else {
      ResponseIsUntouched(server, t.state, msg);
    }
  }

  /** Once the request is over its messages change nothing and fire nothing. */
  lemma SettledRequest(server: Server, s: State, msg: In)
    requires !msg.RequestHeaders? && !msg.ResponseHeaders? && !msg.ResponseBody?
    requires msg.RequestBody? ==> s.requestBodyComplete
    ensures var h := Dispatch(server, s, msg).handled; h.events == [] && h.ctx == s.ctx
  {
  }

  // ---------- response headers ----------

  lemma HeadersHandled(server: Server, c: Context, headers: seq<(string, string)>, eos: bool)
    requires HeadersOnly(server.headersPostProcessors)
    ensures var h := HandleResponseHeaders(server, c, headers, eos);
            && h.ctx.response.body == c.response.body && h.ctx.response.bodyMutated == c.response.bodyMutated
            && h.ctx.profile == c.profile
            && (!eos ==> h.replies == [])
  {
    HeadersOnlyRun(
      server.headersPostProcessors, c.response.(headers := Ingest(c.response.headers, headers)), c.cycle);
  }

  lemma NothingCarriedYet(p: Phase, t: Trace, delta: HeaderMutation)
    requires Tracks(p, t) && t.state.status == Running && p.RequestClosed?
    ensures Carries(t.replies, [], delta)
  {
    ReadableIsLegal(t.replies);
    NoResponsePayload(t.replies);
  }

  lemma HeadersStep(server: Server, p: Phase, t: Trace, msg: In)
    requires HarmlessServer(server) && Tracks(p, t) && Returning(server, p, [], t)
    requires t.state.status == Running && msg.ResponseHeaders? && Advance(p, msg).Some?
    ensures var t' := Deliver(server, t, msg);
            t'.state.status == Running ==> Returning(server, Advance(p, msg).value, [], t')
  {
    var h := HandleResponseHeaders(server, t.state.ctx, msg.headers, msg.eos);
    HeadersHandled(server, t.state.ctx, msg.headers, msg.eos);
    if h.error.None? && !msg.eos {
      NothingCarriedYet(p, t, MutationOf(h.ctx.response));
      assert t.replies + [] == t.replies;
    }
  }

  // ---------- response bodies ----------

  lemma EmptyBodyDoesNotParse(codec: Codec)
    requires codec.decode([]).None?
    ensures ParseResponse(codec, map[], []).None?
  {
    Sse.EmptyBodyHasNoSummary(codec);
  }

  /** The buffered answer to a whole body when no plugin interferes. */
  lemma BufferedWhole(server: Server, c: Context, bytes: Bytes)
    requires Harmless(c.profile.responsePlugins + server.postProcessors)
    requires c.response.body == map[] && !c.response.bodyMutated
    ensures var h := HandleResponseBody(server, c, bytes);
            && h.error.None? && h.events == []
            && h.ctx.request == c.request && h.ctx.profile == c.profile
            && Carries(h.replies, bytes, MutationOf(c.response))
            && (h.ctx.response == c.response ||
                exists o :: ParseResponse(server.codec, map[], bytes) == Some(o) && h.ctx.response == c.response.(body := o))
  {
    var h := HandleResponseBody(server, c, bytes);
    var parsed := ParseResponse(server.codec, map[], bytes);
    if parsed.Some? {
      HarmlessRun(c.profile.responsePlugins + server.postProcessors, c.response.(body := parsed.value), c.cycle);
    }
    PayloadOfAnswer(false, h.replies[0], bytes);
    assert h.replies == [h.replies[0]] + ResponseBodyReplies(bytes);
    assert forall i :: 0 < i < |h.replies| ==> IsBody(false, h.replies[i]);
  }

  lemma PayloadOfLast(front: seq<Reply>, chunk: Chunk)
    requires Payload(false, front) == []
    ensures Payload(false, front + [ResponseBodyReply(chunk)]) == chunk.body
  {
    var replies := front + [ResponseBodyReply(chunk)];
    assert replies[..|replies| - 1] == front;
  }

  lemma ChunkIsCarried(c: Context, bytes: Bytes, eos: bool)
    ensures Carries(StreamChunk(c, bytes, eos).replies, bytes, MutationOf(c.response))
  {
    var chunk := Chunk(bytes, eos);
    if c.responseHeadersSent {
      PayloadOfLast([], chunk);
      assert [] + [ResponseBodyReply(chunk)] == [ResponseBodyReply(chunk)];
    } else {
      PayloadOfLast([ResponseHeadersReply(OptionalMutation(c.response), false)], chunk);
    }
  }

  /** One chunk through harmless chunk processors: its bytes, preceded by the headers if still due. */
  lemma StreamedChunk(c: Context, bytes: Bytes, eos: bool)
    requires HarmlessOnChunks(c.profile.chunkProcessors)
    ensures var h := HandleResponseChunk(c, bytes, eos);
            && h.error.None? && h.events == []
            && h.ctx.request == c.request && h.ctx.response == c.response && h.ctx.profile == c.profile
            && Carries(h.replies, bytes, MutationOf(c.response))
  {
    HarmlessChunkRun(c.profile.chunkProcessors, c.response, bytes, c.cycle, eos);
    var r := RunChunkProcessors(c.profile.chunkProcessors, c.response, bytes, false, c.cycle, eos);
    ChunkIsCarried(c, bytes, eos);
    ChunkIsCarried(
      c.(response := r.message, cycle := r.cycle, currentChunk := r.chunk, chunkMutated := r.mutated), bytes, eos);
  }

  lemma CarriesConcat(a: seq<Reply>, b: seq<Reply>, sent: Bytes, more: Bytes, delta: HeaderMutation)
    requires Carries(a, sent, delta) && Carries(b, more, delta)
    ensures Carries(a + b, sent + more, delta)
  {
    PayloadOfConcat(false, a, b);
  }

  /** Completing a response whose body the handler has parsed, or left alone. */
  lemma CompletionParses(codec: Codec, h: Handled, original: Message, bytes: Bytes)
    requires codec.decode([]).None? && original.body == map[] && h.events == []
    requires h.ctx.response == original ||
             exists o :: ParseResponse(codec, map[], bytes) == Some(o) && h.ctx.response == original.(body := o)
    ensures var done := CompleteResponse(codec, h, bytes);
            && done.ctx.response == original.(body := ParsedBody(codec, bytes))
            && done.ctx.request == h.ctx.request && done.ctx.profile == h.ctx.profile
            && done.replies == h.replies && done.error == h.error
            && done.events == [ResponseEvent(h.ctx.request, done.ctx.response)]
  {
    EmptyBodyDoesNotParse(codec);
  }

  /** What the end of a response does, in either mode. */
  ghost predicate Completes(server: Server, t: Trace, bytes: Bytes, delta: HeaderMutation, t': Trace) {
    && t'.state.status == Running
    && t'.state.ctx.response == t.state.ctx.response.(body := ParsedBody(server.codec, bytes))
    && t'.state.ctx.request == t.state.ctx.request && t'.state.ctx.profile == t.state.ctx.profile
    && t'.state.responseBody == bytes
    && t'.events == t.events + [ResponseEvent(t.state.ctx.request, t'.state.ctx.response)]
    && Carries(t'.replies, bytes, delta)
  }

  lemma NothingSentYet(p: Phase, t: Trace, delta: HeaderMutation)
    requires Tracks(p, t) && t.state.status == Running && p.ResponseOpen?
    requires t.state.ctx.profile.needsResponseBuffering
    ensures Carries(t.replies, [], delta)
  {
    ReadableIsLegal(t.replies);
    NoResponsePayload(t.replies);
  }

  /** The handler that gets the end of the response, by mode. */
  function EndHandler(server: Server, c: Context, whole: Bytes, last: Bytes): Handled {
    if c.profile.needsResponseBuffering then HandleResponseBody(server, c, whole) else HandleResponseChunk(c, last, true)
  }

  lemma EndDelivery(server: Server, t: Trace, last: Bytes, h: Handled)
    requires t.state.status == Running && !t.state.responseBodyComplete
    requires h == CompleteResponse(
      server.codec, EndHandler(server, t.state.ctx, t.state.responseBody + last, last), t.state.responseBody + last)
    requires h.error.None?
    ensures var t' := Deliver(server, t, ResponseBody(last, true));
            && t'.state.status == Running && t'.state.ctx == h.ctx
            && t'.state.responseBody == t.state.responseBody + last
            && t'.replies == t.replies + h.replies && t'.events == t.events + h.events
  {
  }

  lemma BufferedEnd(server: Server, p: Phase, t: Trace, whole: Bytes)
    requires HarmlessServer(server) && Tracks(p, t) && t.state.status == Running && p.ResponseOpen?
    requires t.state.ctx.profile.needsResponseBuffering && HarmlessProfile(server, t.state.ctx.profile)
    requires t.state.ctx.response.body == map[] && !t.state.ctx.response.bodyMutated
    ensures var h := HandleResponseBody(server, t.state.ctx, whole);
            Carries(t.replies + h.replies, whole, MutationOf(t.state.ctx.response))
  {
    var c := t.state.ctx;
    BufferedWhole(server, c, whole);
    NothingSentYet(p, t, MutationOf(c.response));
    CarriesConcat(t.replies, HandleResponseBody(server, c, whole).replies, [], whole, MutationOf(c.response));
    assert [] + whole == whole;
  }

  /** The last chunk of the response, buffered or streamed, completes it alike. */
  lemma EndCompletes(server: Server, p: Phase, received: Bytes, t: Trace, last: Bytes)
    requires HarmlessServer(server) && Tracks(p, t) && Returning(server, p, received, t)
    requires t.state.status == Running && p.ResponseOpen?
    ensures Completes(server, t, received + last, MutationOf(t.state.ctx.response),
                      Deliver(server, t, ResponseBody(last, true)))
  {
    var c, whole := t.state.ctx, received + last;
    var h := EndHandler(server, c, whole, last);
    if c.profile.needsResponseBuffering {
      BufferedWhole(server, c, whole);
      BufferedEnd(server, p, t, whole);
    } else {
      StreamedChunk(c, last, true);
      CarriesConcat(t.replies, h.replies, received, last, MutationOf(c.response));
    }
    CompletionParses(server.codec, h, c.response, whole);
    EndDelivery(server, t, last, CompleteResponse(server.codec, h, whole));
  }

  /** A chunk before the last is kept, or streamed on, and changes nothing else. */
  lemma ChunkStep(server: Server, p: Phase, received: Bytes, t: Trace, bytes: Bytes)
    requires HarmlessServer(server) && Tracks(p, t) && Returning(server, p, received, t)
    requires t.state.status == Running && p.ResponseOpen?
    ensures var t' := Deliver(server, t, ResponseBody(bytes, false));
            && t'.state.status == Running && Returning(server, p, received + bytes, t')
            && t'.state.ctx.request == t.state.ctx.request && t'.state.ctx.response == t.state.ctx.response
            && t'.events == t.events
  {
    var c := t.state.ctx;
    assert t.events + [] == t.events;
    if !c.profile.needsResponseBuffering {
      StreamedChunk(c, bytes, false);
      CarriesConcat(t.replies, HandleResponseChunk(c, bytes, false).replies, received, bytes, MutationOf(c.response));
    }
  }

  /** Chunks repeated after the end change nothing. */
  lemma RepeatedChunk(server: Server, t: Trace, bytes: Bytes, eos: bool)
    requires t.state.responseBodyComplete && t.state.status == Running
    ensures Deliver(server, t, ResponseBody(bytes, eos)) == t
  {
    assert t.replies + [] == t.replies && t.events + [] == t.events && t.ran + [] == t.ran;
  }

  // ---------- whole streams ----------

  /** What has come of the response one message later. */
  function Taken(p: Phase, received: Bytes, msg: In): Bytes {
    if msg.ResponseBody? && p.ResponseOpen? then received + msg.bytes else received
  }

  ghost predicate Fits(p: Phase, received: Bytes) { p.Opening? || p.RequestOpen? || p.RequestClosed? ==> received == [] }

  lemma ReturningStep(server: Server, p: Phase, received: Bytes, t: Trace, msg: In)
    requires HarmlessServer(server) && Tracks(p, t) && Returning(server, p, received, t) && Fits(p, received)
    requires t.state.status == Running && Advance(p, msg).Some?
    ensures var t' := Deliver(server, t, msg);
            t'.state.status == Running ==> Returning(server, Advance(p, msg).value, Taken(p, received, msg), t')
    ensures Fits(Advance(p, msg).value, Taken(p, received, msg))
  {
    match msg
    case ResponseHeaders(_, _) => HeadersStep(server, p, t, msg);
    case ResponseBody(bytes, eos) =>
      if p.ResponseClosed? {
        RepeatedChunk(server, t, bytes, eos);
      } else if eos {
        EndCompletes(server, p, received, t, bytes);
      } else {
        ChunkStep(server, p, received, t, bytes);
      }
    case _ => OtherStep(server, p, received, t, msg);
  }

  /** The response bytes still to be counted from phase p on. */
  function Rest(p: Phase, msgs: seq<In>): Bytes { if p.ResponseClosed? then [] else DeliveredResponse(msgs) }

  lemma RestStep(p: Phase, received: Bytes, msgs: seq<In>)
    requires msgs != [] && Advance(p, msgs[0]).Some?
    ensures Taken(p, received, msgs[0]) + Rest(Advance(p, msgs[0]).value, msgs[1..]) == received + Rest(p, msgs) ||
            (Advance(p, msgs[0]).value.ResponseClosed? && !Advance(p, msgs[0]).value.responseBody)
  {
  }

  lemma {:induction false} BodylessStaysBodyless(p: Phase, msgs: seq<In>)
    requires p.ResponseClosed? && !p.responseBody && AdvanceAll(p, msgs).Some?
    ensures AdvanceAll(p, msgs).value == p
    decreases |msgs|
  {
    if msgs != [] {
      BodylessStaysBodyless(p, msgs[1..]);
    }
  }

  lemma {:induction false} ReturningRun(server: Server, p: Phase, received: Bytes, t: Trace, msgs: seq<In>)
    requires HarmlessServer(server) && Tracks(p, t) && Fits(p, received)
    requires t.state.status == Running ==> Returning(server, p, received, t)
    requires AdvanceAll(p, msgs).Some?
    ensures var t', q := DeliverAll(server, t, msgs), AdvanceAll(p, msgs).value;
            t'.state.status == Running && (q.ResponseClosed? ==> q.responseBody) ==>
              Returning(server, q, received + Rest(p, msgs), t')
    decreases |msgs|
  {
    if t.state.status != Running {
      StoppedStaysPut(server, t, msgs);
    } else if msgs == [] {
      assert received + [] == received;
    } else {
      var q := Advance(p, msgs[0]).value;
      ReturningStep(server, p, received, t, msgs[0]);
      DeliverTracks(server, p, t, msgs[0]);
      ReturningRun(server, q, Taken(p, received, msgs[0]), Deliver(server, t, msgs[0]), msgs[1..]);
      RestStep(p, received, msgs);
      if q.ResponseClosed? && !q.responseBody {
        BodylessStaysBodyless(q, msgs[1..]);
      }
    }
  }

  lemma {:induction false} NoneDelivered(msgs: seq<In>)
    requires forall i :: 0 <= i < |msgs| ==> !msgs[i].ResponseBody?
    ensures DeliveredResponse(msgs) == []
    decreases |msgs|
  {
    if msgs != [] {
      NoneDelivered(msgs[1..]);
    }
  }

  lemma StartIsReturning(server: Server, cycle: CycleState)
    ensures Tracks(Opening, Start(cycle)) && Returning(server, Opening, [], Start(cycle))
  {
  }

  lemma ReturningIsReturned(server: Server, p: Phase, received: Bytes, t: Trace)
    requires Returning(server, p, received, t) && p.ResponseClosed? && p.responseBody
    ensures Returned(server.codec, received, t)
  {
  }

  lemma EndedIsReturning(server: Server, cycle: CycleState, msgs: seq<In>, t: Trace, p: Phase)
    requires HarmlessServer(server) && AdvanceAll(Opening, msgs) == Some(p) && t == DeliverAll(server, Start(cycle), msgs)
    requires t.state.status == Running && p.ResponseClosed? && p.responseBody
    ensures Returning(server, p, [] + DeliveredResponse(msgs), t)
  {
    StartIsReturning(server, cycle);
    ReturningRun(server, Opening, [], Start(cycle), msgs);
  }

  lemma EndedIsReturned(server: Server, cycle: CycleState, msgs: seq<In>)
    requires HarmlessServer(server) && WellOrdered(msgs)
    ensures var t, p := DeliverAll(server, Start(cycle), msgs), AdvanceAll(Opening, msgs).value;
            t.state.status == Running && p.ResponseClosed? && p.responseBody ==>
              Returned(server.codec, DeliveredResponse(msgs), t)
  {
    var t, p := DeliverAll(server, Start(cycle), msgs), AdvanceAll(Opening, msgs).value;
    var whole := DeliveredResponse(msgs);
    if t.state.status == Running && p.ResponseClosed? && p.responseBody {
      EndedIsReturning(server, cycle, msgs, t, p);
      assert [] + whole == whole;
      ReturningIsReturned(server, p, whole, t);
    }
  }

  lemma EndedHasHeaders(server: Server, cycle: CycleState, msgs: seq<In>)
    requires WellOrdered(msgs)
    ensures var t, p := DeliverAll(server, Start(cycle), msgs), AdvanceAll(Opening, msgs).value;
            t.state.status == Running && p.ResponseClosed? && p.responseBody ==>
              exists i :: 0 <= i < |t.replies| && IsHeaders(false, t.replies[i])
  {
    RepliesAreLegal(server, cycle, msgs);
  }

  /** Every well-ordered stream that has run to the end of its response under plugins that do not interfere,
      in whichever mode and however the response was cut, has returned the upstream body byte for byte under
      one headers reply with the recorded delta, and has told the data layer last of the response with its
      whole body parsed. */
  lemma ResponseIsReturnedExactly(server: Server, cycle: CycleState, msgs: seq<In>)
    requires HarmlessServer(server) && WellOrdered(msgs)
    ensures var t, p := DeliverAll(server, Start(cycle), msgs), AdvanceAll(Opening, msgs).value;
            t.state.status == Running && p.ResponseClosed? && p.responseBody ==>
              && Returned(server.codec, DeliveredResponse(msgs), t)
              && exists i :: 0 <= i < |t.replies| && IsHeaders(false, t.replies[i])
  {
    EndedIsReturned(server, cycle, msgs);
    EndedHasHeaders(server, cycle, msgs);
  }

  // ---------- the two modes agree ----------

  /** The same choice, but perhaps with other plugins and another mode for the response. */
  ghost predicate SameRequestSide(a: Pick, b: Pick) {
    && a.cycle == b.cycle
    && (a.profile.Some? <==> b.profile.Some?)
    && (a.profile.Some? ==> a.profile.value.requestPlugins == b.profile.value.requestPlugins)
  }

  /** Two servers that treat requests and response headers alike. */
  ghost predicate Twins(a: Server, b: Server) {
    && a.codec == b.codec
    && a.preProcessors == b.preProcessors
    && a.headersPostProcessors == b.headersPostProcessors
    && (a.picker.Some? <==> b.picker.Some?)
    && (a.picker.Some? ==> forall m, c ::
          SameRequestSide(a.picker.value(m, c, a.profiles), b.picker.value(m, c, b.profiles)))
  }

  /** The same but for the profile. */
  ghost predicate SameButProfile(c: Context, d: Context) { d == c.(profile := d.profile) }

  /** Until the response body comes, the twins' streams differ in the profile alone; then also in what has
      gone back, but not in the request, the response or the events. */
  ghost predicate Alike(p: Phase, t: Trace, u: Trace) {
    && t.state.status == u.state.status
    && t.events == u.events
    && (t.state.status == Running ==>
          && t.state.requestBody == u.state.requestBody
          && t.state.requestBodyComplete == u.state.requestBodyComplete
          && t.state.responseBodyComplete == u.state.responseBodyComplete
          && t.state.ctx.request == u.state.ctx.request
          && t.state.ctx.response == u.state.ctx.response
          && (!p.ResponseOpen? && !p.ResponseClosed? ==> SameButProfile(t.state.ctx, u.state.ctx)))
  }

  lemma TwinPipelines(a: Server, b: Server, c: Context, d: Context)
    requires Twins(a, b) && SameButProfile(c, d)
    ensures var h, k := RunRequestPipeline(a, c), RunRequestPipeline(b, d);
            h.error == k.error && SameButProfile(h.ctx, k.ctx)
  {
    var pre := RunProcessors(a.preProcessors, c.request, c.cycle);
    if pre.error.None? && a.picker.Some? {
      assert SameRequestSide(
        a.picker.value(pre.message, pre.cycle, a.profiles), b.picker.value(pre.message, pre.cycle, b.profiles));
    }
  }

  lemma TwinRequests(a: Server, b: Server, c: Context, d: Context, bytes: Bytes)
    requires Twins(a, b) && SameButProfile(c, d)
    ensures var h, k := HandleRequestBody(a, c, bytes), HandleRequestBody(b, d, bytes);
            h.error == k.error && h.events == k.events && h.replies == k.replies && SameButProfile(h.ctx, k.ctx)
  {
    var parsed := Unmarshal(a.codec, c.request.body, bytes);
    if parsed.Some? {
      TwinPipelines(a, b, c.(request := c.request.(body := parsed.value)), d.(request := d.request.(body := parsed.value)));
    }
  }

  lemma TwinResponseHeaders(a: Server, b: Server, c: Context, d: Context, headers: seq<(string, string)>, eos: bool)
    requires Twins(a, b) && SameButProfile(c, d)
    ensures var h, k := HandleResponseHeaders(a, c, headers, eos), HandleResponseHeaders(b, d, headers, eos);
            h.error == k.error && h.events == k.events == [] && SameButProfile(h.ctx, k.ctx)
  {
  }

  lemma AlikeRequestBody(a: Server, b: Server, p: Phase, t: Trace, u: Trace, bytes: Bytes, eos: bool)
    requires Twins(a, b) && Alike(p, t, u) && t.state.status == Running
    requires !p.ResponseOpen? && !p.ResponseClosed?
    ensures Alike(p, Deliver(a, t, RequestBody(bytes, eos)), Deliver(b, u, RequestBody(bytes, eos)))
  {
    TwinRequests(a, b, t.state.ctx, u.state.ctx, t.state.requestBody + bytes);
  }

  lemma AlikeResponseHeaders(
    a: Server, b: Server, p: Phase, q: Phase, t: Trace, u: Trace, headers: seq<(string, string)>, eos: bool)
    requires Twins(a, b) && Alike(p, t, u) && t.state.status == Running
    requires !p.ResponseOpen? && !p.ResponseClosed?
    ensures Alike(q, Deliver(a, t, ResponseHeaders(headers, eos)), Deliver(b, u, ResponseHeaders(headers, eos)))
  {
    TwinResponseHeaders(a, b, t.state.ctx, u.state.ctx, headers, eos);
  }

  /** A message before the response body. */
  lemma AlikeBefore(a: Server, b: Server, p: Phase, t: Trace, u: Trace, msg: In)
    requires Twins(a, b) && Alike(p, t, u) && t.state.status == Running
    requires !p.ResponseOpen? && !p.ResponseClosed? && Advance(p, msg).Some?
    ensures Alike(Advance(p, msg).value, Deliver(a, t, msg), Deliver(b, u, msg))
  {
    match msg
    case RequestBody(bytes, eos) => AlikeRequestBody(a, b, p, t, u, bytes, eos);
    case ResponseHeaders(headers, eos) =>
      AlikeResponseHeaders(a, b, p, Advance(p, msg).value, t, u, headers, eos);
    case _ =>
  }

  /** Trailers and repetitions once the response has begun. */
  lemma AlikeAfter(a: Server, b: Server, p: Phase, t: Trace, u: Trace, msg: In)
    requires Alike(p, t, u) && t.state.status == Running && Tracks(p, t) && Tracks(p, u)
    requires (p.ResponseOpen? || p.ResponseClosed?) && !msg.ResponseBody? && Advance(p, msg).Some?
    ensures Alike(Advance(p, msg).value, Deliver(a, t, msg), Deliver(b, u, msg))
  {
    SettledRequest(a, t.state, msg);
    SettledRequest(b, u.state, msg);
    assert t.events + [] == t.events;
  }

  lemma AlikeChunk(
    a: Server, b: Server, p: Phase, r: Bytes, t: Trace, u: Trace, bytes: Bytes, eos: bool)
    requires HarmlessServer(a) && HarmlessServer(b) && Twins(a, b) && Alike(p, t, u) && t.state.status == Running
    requires Tracks(p, t) && Tracks(p, u) && Returning(a, p, r, t) && Returning(b, p, r, u)
    requires Advance(p, ResponseBody(bytes, eos)).Some?
    ensures Alike(Advance(p, ResponseBody(bytes, eos)).value,
                  Deliver(a, t, ResponseBody(bytes, eos)), Deliver(b, u, ResponseBody(bytes, eos)))
  {
    if p.ResponseClosed? {
      RepeatedChunk(a, t, bytes, eos);
      RepeatedChunk(b, u, bytes, eos);
    } else if eos {
      EndCompletes(a, p, r, t, bytes);
      EndCompletes(b, p, r, u, bytes);
    } else {
      ChunkStep(a, p, r, t, bytes);
      ChunkStep(b, p, r, u, bytes);
    }
  }

  lemma AlikeStep(a: Server, b: Server, p: Phase, r: Bytes, t: Trace, u: Trace, msg: In)
    requires HarmlessServer(a) && HarmlessServer(b) && Twins(a, b) && Alike(p, t, u) && t.state.status == Running
    requires Tracks(p, t) && Tracks(p, u) && Returning(a, p, r, t) && Returning(b, p, r, u)
    requires Advance(p, msg).Some?
    ensures Alike(Advance(p, msg).value, Deliver(a, t, msg), Deliver(b, u, msg))
  {
    if msg.ResponseBody? {
      AlikeChunk(a, b, p, r, t, u, msg.bytes, msg.eos);
    } else if p.ResponseOpen? || p.ResponseClosed? {
      AlikeAfter(a, b, p, t, u, msg);
    } else {
      AlikeBefore(a, b, p, t, u, msg);
    }
  }

  lemma {:induction false} AlikeRun(a: Server, b: Server, p: Phase, r: Bytes, t: Trace, u: Trace, msgs: seq<In>)
    requires HarmlessServer(a) && HarmlessServer(b) && Twins(a, b) && Alike(p, t, u)
    requires Tracks(p, t) && Tracks(p, u) && Fits(p, r) && AdvanceAll(p, msgs).Some?
    requires t.state.status == Running ==> Returning(a, p, r, t) && Returning(b, p, r, u)
    ensures Alike(AdvanceAll(p, msgs).value, DeliverAll(a, t, msgs), DeliverAll(b, u, msgs))
    decreases |msgs|
  {
    if t.state.status != Running {
      StoppedStaysPut(a, t, msgs);
      StoppedStaysPut(b, u, msgs);
    } else if msgs != [] {
      var msg := msgs[0];
      AlikeStep(a, b, p, r, t, u, msg);
      ReturningStep(a, p, r, t, msg);
      ReturningStep(b, p, r, u, msg);
      DeliverTracks(a, p, t, msg);
      DeliverTracks(b, p, u, msg);
      AlikeRun(a, b, Advance(p, msg).value, Taken(p, r, msg), Deliver(a, t, msg), Deliver(b, u, msg), msgs[1..]);
    }
  }

  /** Streamed and buffered responses agree. Take two servers that treat requests and response headers alike
      but run any plugins that do not interfere, buffered or streamed, on the way back: over every well-ordered
      stream they end alike, tell the data layer the very same, and have returned the same bytes under the same
      header delta. */
  lemma ModesAgree(a: Server, b: Server, cycle: CycleState, msgs: seq<In>)
    requires HarmlessServer(a) && HarmlessServer(b) && Twins(a, b) && WellOrdered(msgs)
    ensures var t, u := DeliverAll(a, Start(cycle), msgs), DeliverAll(b, Start(cycle), msgs);
            var p := AdvanceAll(Opening, msgs).value;
            && t.state.status == u.state.status
            && t.events == u.events
            && (t.state.status == Running && p.ResponseClosed? && p.responseBody ==>
                  && Carries(t.replies, DeliveredResponse(msgs), MutationOf(t.state.ctx.response))
                  && Carries(u.replies, DeliveredResponse(msgs), MutationOf(t.state.ctx.response))
                  && (exists i :: 0 <= i < |t.replies| && IsHeaders(false, t.replies[i]))
                  && (exists i :: 0 <= i < |u.replies| && IsHeaders(false, u.replies[i])))
  {
    AlikeRun(a, b, Opening, [], Start(cycle), Start(cycle), msgs);
    ResponseIsReturnedExactly(a, cycle, msgs);
    ResponseIsReturnedExactly(b, cycle, msgs);
  }

  /** A server with one profile for everything. */
  function Fixed(codec: Codec, profile: Profile): Server {
    Server(codec, [], Some((m: Message, c: CycleState, profiles: map<string, Profile>) => Pick(Some(profile), c)),
           map["default" := profile], [], [])
  }

  lemma FixedRequest(codec: Codec, profile: Profile, c: Context, request: Bytes)
    requires codec.decode(request).Some? && profile.requestPlugins == [] && !c.request.bodyMutated
    ensures var h := HandleRequestBody(Fixed(codec, profile), c, request);
            h.error.None? && h.ctx.profile == profile
  {
  }

  /** A request with a body, and the headers of its response. */
  function Front(request: Bytes): seq<In> {
    [RequestHeaders([], [], false), RequestBody(request, true), ResponseHeaders([], false)]
  }

  lemma FrontIsOrdered(request: Bytes)
    ensures AdvanceAll(Opening, Front(request)) == Some(ResponseOpen(true)) && DeliveredResponse(Front(request)) == []
  {
    var front := Front(request);
    NoneDelivered(front);
    assert front[1..] == [front[1], front[2]] && front[1..][1..] == [front[2]] && front[1..][1..][1..] == [];
    assert AdvanceAll(RequestClosed(true), [front[2]]) == Some(ResponseOpen(true));
    assert AdvanceAll(RequestOpen, front[1..]) == Some(ResponseOpen(true));
  }

  lemma FixedFront(codec: Codec, profile: Profile, cycle: CycleState, request: Bytes)
    requires codec.decode(request).Some? && profile.requestPlugins == []
    ensures var t := DeliverAll(Fixed(codec, profile), Start(cycle), Front(request));
            t.state.status == Running && t.state.ctx.profile == profile
  {
    var server, front := Fixed(codec, profile), Front(request);
    var t1 := Deliver(server, Start(cycle), front[0]);
    assert [] + request == request;
    FixedRequest(codec, profile, t1.state.ctx, request);
    var t2 := Deliver(server, t1, front[1]);
    assert t2.state.status == Running && t2.state.ctx.profile == profile;
    var t3 := Deliver(server, t2, front[2]);
    assert t3.state.status == Running && t3.state.ctx.profile == profile;
    assert front[1..] == [front[1], front[2]] && front[1..][1..] == [front[2]];
    assert DeliverAll(server, t2, [front[2]]) == t3;
  }

  lemma FixedIsHarmless(codec: Codec, profile: Profile)
    requires codec.decode([]).None? && HarmlessProfile(Fixed(codec, profile), profile)
    ensures HarmlessServer(Fixed(codec, profile))
  {
  }

  lemma FixedReady(codec: Codec, profile: Profile, cycle: CycleState, request: Bytes)
    requires codec.decode(request).Some? && profile.requestPlugins == [] && HarmlessServer(Fixed(codec, profile))
    ensures var server := Fixed(codec, profile);
            var t := DeliverAll(server, Start(cycle), Front(request));
            && t.state.status == Running && t.state.ctx.profile == profile
            && Tracks(ResponseOpen(true), t) && Returning(server, ResponseOpen(true), [], t)
  {
    var server, front := Fixed(codec, profile), Front(request);
    FixedFront(codec, profile, cycle, request);
    FrontIsOrdered(request);
    DeliverAllTracks(server, Opening, Start(cycle), front);
    ReturningRun(server, Opening, [], Start(cycle), front);
  }

  lemma FixedEnd(server: Server, t: Trace, response: Bytes)
    requires HarmlessServer(server) && t.state.status == Running
    requires Tracks(ResponseOpen(true), t) && Returning(server, ResponseOpen(true), [], t)
    ensures var t' := DeliverAll(server, t, [ResponseBody(response, true)]);
            t'.state.status == Running && t'.state.ctx.profile == t.state.ctx.profile
  {
    EndCompletes(server, ResponseOpen(true), [], t, response);
    assert DeliverAll(server, t, [ResponseBody(response, true)]) == Deliver(server, t, ResponseBody(response, true));
  }

  /** Both modes occur: a profile that does not interfere and has no request plugins, buffering or not, serves
      a request with any body that parses, and any response to it, to the end. */
  lemma EveryModeOccurs(codec: Codec, profile: Profile, cycle: CycleState, request: Bytes, response: Bytes)
    requires codec.decode([]).None? && codec.decode(request).Some?
    requires profile.requestPlugins == [] && HarmlessProfile(Fixed(codec, profile), profile)
    ensures var server, msgs := Fixed(codec, profile), Front(request) + [ResponseBody(response, true)];
            var t := DeliverAll(server, Start(cycle), msgs);
            && HarmlessServer(server)
            && AdvanceAll(Opening, msgs) == Some(ResponseClosed(true, true))
            && t.state.status == Running && t.state.ctx.profile == profile
  {
    var server, front, last := Fixed(codec, profile), Front(request), ResponseBody(response, true);
    FixedIsHarmless(codec, profile);
    FixedReady(codec, profile, cycle, request);
    FrontIsOrdered(request);
    AdvanceSnoc(Opening, front, last);
    DeliverAllOfConcat(server, Start(cycle), front, [last]);
    FixedEnd(server, DeliverAll(server, Start(cycle), front), response);
  }

  // ---------- a buffered response that trailers end is never flushed ----------

  ghost predicate NoResponseEnd(msgs: seq<In>) {
    forall i :: 0 <= i < |msgs| && msgs[i].ResponseBody? ==> !msgs[i].eos
  }

  ghost predicate NothingReturned(t: Trace) {
    && (forall i :: 0 <= i < |t.replies| ==> !t.replies[i].ResponseBodyReply?)
    && (forall i :: 0 <= i < |t.events| ==> !t.events[i].ResponseEvent?)
  }

  /** The request is settled, its profile buffers, and the response has not ended. */
  ghost predicate Holding(t: Trace) {
    t.state.requestBodyComplete && !t.state.responseBodyComplete && t.state.ctx.profile.needsResponseBuffering
  }

  lemma HoldsBack(server: Server, t: Trace, msg: In)
    requires Holding(t) && NothingReturned(t) && (msg.ResponseBody? ==> !msg.eos)
    ensures Holding(Deliver(server, t, msg)) && NothingReturned(Deliver(server, t, msg))
  {
  }

  /** In buffering mode, without an end of stream on some response chunk - trailers included - no byte of the
      response body reaches the client and its event never fires. */
  lemma {:induction false} UnfinishedResponseIsNeverReturned(server: Server, t: Trace, msgs: seq<In>)
    requires Holding(t) && NothingReturned(t) && NoResponseEnd(msgs)
    ensures NothingReturned(DeliverAll(server, t, msgs))
    decreases |msgs|
  {
    if msgs != [] {
      HoldsBack(server, t, msgs[0]);
      UnfinishedResponseIsNeverReturned(server, Deliver(server, t, msgs[0]), msgs[1..]);
    }
  }

  /** The end of a response always fires its event, even when a plugin fails. */
  lemma EndFires(server: Server, t: Trace, bytes: Bytes)
    requires t.state.status == Running && !t.state.responseBodyComplete
    ensures var events := Deliver(server, t, ResponseBody(bytes, true)).events;
            |events| > 0 && events[|events| - 1].ResponseEvent?
  {
  }

  /** So a buffered stream that is still running has returned its response exactly when the response ended. */
  lemma {:induction false} ReturnedIffEnded(server: Server, t: Trace, msgs: seq<In>)
    requires Holding(t) && NothingReturned(t) && DeliverAll(server, t, msgs).state.status == Running
    ensures NothingReturned(DeliverAll(server, t, msgs)) <==> NoResponseEnd(msgs)
    decreases |msgs|
  {
    if NoResponseEnd(msgs) {
      UnfinishedResponseIsNeverReturned(server, t, msgs);
    } else {
      if t.state.status != Running {
        StoppedStaysPut(server, t, msgs);
      }
      var next := Deliver(server, t, msgs[0]);
      if msgs[0].ResponseBody? && msgs[0].eos {
        EndFires(server, t, msgs[0].bytes);
        EventsGrow(server, next, msgs[1..]);
        assert DeliverAll(server, next, msgs[1..]).events[|next.events| - 1].ResponseEvent?;
      } else {
        HoldsBack(server, t, msgs[0]);
        assert forall i :: 0 < i < |msgs| ==> msgs[i] == msgs[1..][i - 1];
        ReturnedIffEnded(server, next, msgs[1..]);
      }
    }
  }
}
