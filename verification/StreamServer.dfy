/** The Process loop and its handlers as they update their state, tied to the stream machine. */
module StreamServer {
  import opened Common
  import opened Json
  import opened Messages
  import opened Framework
  import opened Chunking
  import opened Handlers
  import Sse
  import Text

  /** One Process call: the RequestContext and the loop's locals. */
  class Stream {
    const server: Server
    const request: InferenceMessage
    const response: InferenceMessage
    var currentChunk: Bytes
    var chunkMutated: bool
    var profile: Profile
    var cycle: CycleState
    var responseHeadersSent: bool
    var requestBody: Bytes
    var responseBody: Bytes
    var requestBodyComplete: bool
    var responseBodyComplete: bool
    var status: Status

    ghost predicate Valid() { request != response }

    ghost function Ctx(): Context
      reads this, request, response
    {
      Context(request.View(), response.View(), currentChunk, chunkMutated, profile, cycle, responseHeadersSent)
    }

    ghost function View(): State
      reads this, request, response
    {
      State(Ctx(), requestBody, responseBody, requestBodyComplete, responseBodyComplete, status)
    }

    constructor (server: Server, cycle: CycleState)
      ensures Valid() && fresh(request) && fresh(response) && this.server == server
      ensures View() == Fresh(cycle)
    {
      var req := new InferenceMessage();
      var resp := new InferenceMessage();
      this.server, request, response := server, req, resp;
      currentChunk, chunkMutated, profile, responseHeadersSent := [], false, EmptyProfile, false;
      this.cycle := cycle;
      requestBody, responseBody, requestBodyComplete, responseBodyComplete := [], [], false, false;
      status := Running;
    }

    // ---------- plugin loops ----------

    method RunPlugins(plugins: seq<Processor>, m: InferenceMessage)
      returns (ran: seq<Invocation>, error: Option<Error>)
      modifies m, `cycle
      ensures PipelineResult(m.View(), cycle, ran, error) == RunProcessors(plugins, old(m.View()), old(cycle))
    {
      ran, error := [], None;
      for i := 0 to |plugins|
        invariant error == None
        invariant RunProcessors(plugins, old(m.View()), old(cycle)) ==
                  var rest := RunProcessors(plugins[i..], m.View(), cycle); rest.(ran := ran + rest.ran)
      {
        var o := plugins[i].run(m.View(), cycle);
        ran := ran + [Invocation(plugins[i].name, m.body)];
        m.Perform(o.ops);
        cycle := o.cycle;
        if o.error.Some? {
          return ran, o.error;
        }
        assert plugins[i..][1..] == plugins[i + 1..];
      }
    }

    method RunChunkPlugins(plugins: seq<ChunkProcessor>, isFinal: bool) returns (error: Option<Error>)
      modifies response, `currentChunk, `chunkMutated, `cycle
      ensures ChunkPipelineResult(response.View(), currentChunk, chunkMutated, cycle, error) ==
              RunChunkProcessors(plugins, old(response.View()), old(currentChunk), old(chunkMutated), old(cycle), isFinal)
    {
      error := None;
      for i := 0 to |plugins|
        invariant error == None
        invariant RunChunkProcessors(
                    plugins, old(response.View()), old(currentChunk), old(chunkMutated), old(cycle), isFinal) ==
                  RunChunkProcessors(plugins[i..], response.View(), currentChunk, chunkMutated, cycle, isFinal)
      {
        var o := plugins[i].run(response.View(), currentChunk, cycle, isFinal);
        response.Perform(o.ops);
        if o.chunk.Some? {
          currentChunk, chunkMutated := o.chunk.value, true;
        }
        cycle := o.cycle;
        if o.error.Some? {
          return o.error;
        }
        assert plugins[i..][1..] == plugins[i + 1..];
      }
    }

    // ---------- headers ----------

    method IngestHeaders(m: InferenceMessage, incoming: seq<(string, string)>, lower: bool)
      modifies m`headers
      ensures m.headers == Ingest(old(m.headers), if lower then Lowered(incoming) else incoming)
    {
      ghost var all := if lower then Lowered(incoming) else incoming;
      var rest := incoming;
      while rest != []
        invariant Ingest(old(m.headers), all) == Ingest(m.headers, if lower then Lowered(rest) else rest)
        decreases |rest|
      {
        var key := if lower then Text.ToLower(rest[0].0) else rest[0].0;
        m.headers := m.headers[key := rest[0].1];
        assert lower ==> Lowered(rest)[1..] == Lowered(rest[1..]);
        rest := rest[1..];
      }
    }

    method OnRequestHeaders(headers: seq<(string, string)>, trace: seq<(string, string)>, eos: bool)
      returns (replies: seq<Reply>)
      requires Valid()
      modifies request
      ensures Handled(Ctx(), replies, [], [], None) == HandleRequestHeaders(old(Ctx()), headers, trace, eos)
    {
      IngestHeaders(request, headers, true);
      request.Perform(TraceOps(trace));
      if !eos {
        return [];
      }
      return [RequestHeadersReply(OptionalMutation(request.View()), false)];
    }

    method OnResponseHeaders(headers: seq<(string, string)>, eos: bool)
      returns (replies: seq<Reply>, error: Option<Error>)
      requires Valid()
      modifies response, `cycle
      ensures Handled(Ctx(), replies, [], [], error) == HandleResponseHeaders(server, old(Ctx()), headers, eos)
    {
      replies := [];
      IngestHeaders(response, headers, false);
      var _, e := RunPlugins(server.headersPostProcessors, response);
      error := e;
      if error.Some? || !eos {
        return;
      }
      replies := [ResponseHeadersReply(OptionalMutation(response.View()), false)];
    }

    // ---------- bodies ----------

    /** One reply per chunk, appended in order. */
    method AddChunks(replies: seq<Reply>, chunks: seq<Chunk>, isRequest: bool) returns (r: seq<Reply>)
      ensures r == replies + seq(|chunks|, i requires 0 <= i < |chunks| =>
                       if isRequest then RequestBodyReply(chunks[i]) else ResponseBodyReply(chunks[i]))
    {
      r := replies;
      for i := 0 to |chunks|
        invariant |r| == |replies| + i
        invariant forall k :: 0 <= k < |r| ==>
                    r[k] == if k < |replies| then replies[k]
                            else if isRequest then RequestBodyReply(chunks[k - |replies|])
                            else ResponseBodyReply(chunks[k - |replies|])
      {
        r := r + [if isRequest then RequestBodyReply(chunks[i]) else ResponseBodyReply(chunks[i])];
      }
    }

    method AddStreamedBody(replies: seq<Reply>, body: Bytes, isRequest: bool) returns (r: seq<Reply>)
      ensures r == replies + if isRequest then RequestBodyReplies(body) else ResponseBodyReplies(body)
    {
      var chunks := BuildChunkedBodyResponses(body, true);
      r := AddChunks(replies, chunks, isRequest);
      ghost var all := if isRequest then RequestBodyReplies(body) else ResponseBodyReplies(body);
      assert r[|replies|..] == all;
    }

    method OnRequestBody(bytes: Bytes)
      returns (replies: seq<Reply>, events: seq<Event>, error: Option<Error>)
      requires Valid()
      modifies request, `cycle, `profile
      ensures Handled(Ctx(), replies, events, [], error) == HandleRequestBody(server, old(Ctx()), bytes)
    {
      replies, events, error := [], [], None;
      var parsed := Unmarshal(server.codec, request.body, bytes);
      if parsed.None? {
        return [], [], Some(Error(BadRequest, "failed to parse request body"));
      }
      request.body := parsed.value;
      var _, preError := RunPlugins(server.preProcessors, request);
      if preError.Some? {
        return [], [], preError;
      }
      if server.picker.None? {
        return [], [], Some(Error(NilDereference, ""));
      }
      var picked := server.picker.value(request.View(), cycle, server.profiles);
      cycle := picked.cycle;
      if picked.profile.None? {
        return [], [], Some(Error(Internal, "failed to pick a profile"));
      }
      profile := picked.profile.value;
      var _, runError := RunPlugins(profile.requestPlugins, request);
      if runError.Some? {
        return [], [], runError;
      }
      var out := bytes;
      if request.bodyMutated {
        var printed := server.codec.encode(request.body);
        if printed.None? {
          return [], [], Some(Error(Unknown, "failed to marshal request body"));
        }
        out := printed.value;
      }
      request.SetHeader(CONTENT_LENGTH, Text.Itoa(|out|));
      events := [RequestEvent(request.View())];
      replies := [RequestHeadersReply(Some(MutationOf(request.View())), true)];
      replies := AddStreamedBody(replies, out, true);
    }

    method PassThroughReplies(bytes: Bytes) returns (replies: seq<Reply>)
      ensures replies == PassThrough(Ctx(), bytes).replies
    {
      replies := [ResponseHeadersReply(OptionalMutation(response.View()), false)];
      replies := AddStreamedBody(replies, bytes, false);
    }

    /** The body parsed as JSON, else as a summarised event stream. */
    method ParseBody(bytes: Bytes) returns (parsed: Option<Object>)
      ensures parsed == ParseResponse(server.codec, response.body, bytes)
    {
      parsed := Unmarshal(server.codec, response.body, bytes);
      if parsed.None? {
        parsed := Sse.ParseSseResponseBody(server.codec, bytes);
      }
    }

    /** The profile's plugins, then the post-processors unless one of the former failed. */
    method RunResponsePlugins() returns (ran: seq<Invocation>, error: Option<Error>)
      modifies response, `cycle
      ensures PipelineResult(response.View(), cycle, ran, error) ==
              RunProcessors(profile.responsePlugins + server.postProcessors, old(response.View()), old(cycle))
    {
      RunProcessorsOfConcat(profile.responsePlugins, server.postProcessors, response.View(), cycle);
      ran, error := RunPlugins(profile.responsePlugins, response);
      if error.None? {
        var more, postError := RunPlugins(server.postProcessors, response);
        ran, error := ran + more, postError;
      }
    }

    /** The re-printed body with its length announced if a plugin changed it, else the original bytes. */
    method ResponseBytes(bytes: Bytes) returns (out: Option<Bytes>)
      modifies response
      ensures out == OutgoingBody(server.codec, old(response.View()), bytes)
      ensures response.View() ==
              if out.Some? && old(response.bodyMutated)
              then Apply(old(response.View()), SetHeader(CONTENT_LENGTH, Text.Itoa(|out.value|)))
              else old(response.View())
    {
      out := Some(bytes);
      if response.bodyMutated {
        out := server.codec.encode(response.body);
        if out.Some? {
          response.SetHeader(CONTENT_LENGTH, Text.Itoa(|out.value|));
        }
      }
    }

    method OnResponseBody(bytes: Bytes)
      returns (replies: seq<Reply>, ran: seq<Invocation>, error: Option<Error>)
      requires Valid()
      modifies response, `cycle
      ensures Handled(Ctx(), replies, [], ran, error) == HandleResponseBody(server, old(Ctx()), bytes)
    {
      replies, ran, error := [], [], None;
      if profile.responsePlugins == [] && server.postProcessors == [] {
        replies := PassThroughReplies(bytes);
        return;
      }
      var parsed := ParseBody(bytes);
      if parsed.None? {
        replies := PassThroughReplies(bytes);
        return;
      }
      response.body := parsed.value;
      ran, error := RunResponsePlugins();
      if error.Some? {
        return;
      }
      var out := ResponseBytes(bytes);
      if out.None? {
        error := Some(Error(Unknown, "failed to marshal response body"));
        return;
      }
      replies := [ResponseHeadersReply(Some(MutationOf(response.View())), true)];
      replies := AddStreamedBody(replies, out.value, false);
    }

    method StreamedChunkReplies(bytes: Bytes, eos: bool) returns (replies: seq<Reply>)
      modifies `responseHeadersSent
      ensures Handled(Ctx(), replies, [], [], None) == StreamChunk(old(Ctx()), bytes, eos)
    {
      replies := [ResponseBodyReply(Chunk(bytes, eos))];
      if !responseHeadersSent {
        replies := [ResponseHeadersReply(OptionalMutation(response.View()), false)] + replies;
        responseHeadersSent := true;
      }
    }

    method OnResponseChunk(bytes: Bytes, eos: bool) returns (replies: seq<Reply>, error: Option<Error>)
      requires Valid()
      modifies response, `currentChunk, `chunkMutated, `cycle, `responseHeadersSent
      ensures Handled(Ctx(), replies, [], [], error) == HandleResponseChunk(old(Ctx()), bytes, eos)
    {
      replies, error := [], None;
      if profile.chunkProcessors == [] {
        replies := StreamedChunkReplies(bytes, eos);
        return;
      }
      currentChunk, chunkMutated := bytes, false;
      error := RunChunkPlugins(profile.chunkProcessors, eos);
      if error.Some? {
        return;
      }
      replies := StreamedChunkReplies(if chunkMutated then currentChunk else bytes, eos);
    }

    // ---------- the receive loop ----------

    method ReceiveRequestChunk(bytes: Bytes, eos: bool)
      returns (replies: seq<Reply>, events: seq<Event>, error: Option<Error>)
      requires Valid()
      modifies this, request
      ensures var turn := ReceiveRequestBody(server, old(View()), bytes, eos);
              View() == turn.state.(ctx := turn.handled.ctx) &&
              Handled(Ctx(), replies, events, [], error) == turn.handled
    {
      replies, events, error := [], [], None;
      if requestBodyComplete {
        return;
      }
      requestBody := requestBody + bytes;
      if !eos {
        return;
      }
      requestBodyComplete := true;
      replies, events, error := OnRequestBody(requestBody);
    }

    /** The response is complete: make sure the event carries a parsed body, and fire it. */
    method FinishResponse() returns (event: Event)
      requires Valid()
      modifies response`body
      ensures response.View() == FinalResponse(server.codec, old(response.View()), responseBody)
      ensures event == ResponseEvent(request.View(), response.View())
    {
      if response.body == map[] && responseBody != [] {
        var parsed := ParseBody(responseBody);
        if parsed.Some? {
          response.body := parsed.value;
        }
      }
      event := ResponseEvent(request.View(), response.View());
    }

    method ReceiveResponseChunk(bytes: Bytes, eos: bool)
      returns (replies: seq<Reply>, events: seq<Event>, ran: seq<Invocation>, error: Option<Error>)
      requires Valid()
      modifies this, response
      ensures var turn := ReceiveResponseBody(server, old(View()), bytes, eos);
              View() == turn.state.(ctx := turn.handled.ctx) &&
              Handled(Ctx(), replies, events, ran, error) == turn.handled
    {
      replies, events, ran, error := [], [], [], None;
      if responseBodyComplete {
        return;
      }
      responseBody := responseBody + bytes;
      if profile.needsResponseBuffering {
        if !eos {
          return;
        }
        replies, ran, error := OnResponseBody(responseBody);
      } else {
        replies, error := OnResponseChunk(bytes, eos);
      }
      if eos {
        responseBodyComplete := true;
        var event := FinishResponse();
        events := [event];
      }
    }

    /** The switch on the kind of message. */
    method Handle(msg: In)
      returns (replies: seq<Reply>, events: seq<Event>, ran: seq<Invocation>, error: Option<Error>)
      requires Valid()
      modifies this, request, response
      ensures var turn := Dispatch(server, old(View()), msg);
              View() == turn.state.(ctx := turn.handled.ctx) &&
              Handled(Ctx(), replies, events, ran, error) == turn.handled
    {
      replies, events, ran, error := [], [], [], None;
      match msg
      case RequestHeaders(headers, trace, eos) => replies := OnRequestHeaders(headers, trace, eos);
      case RequestBody(bytes, eos) => replies, events, error := ReceiveRequestChunk(bytes, eos);
      case RequestTrailers => replies := [RequestTrailersReply];
      case ResponseHeaders(headers, eos) => replies, error := OnResponseHeaders(headers, eos);
      case ResponseBody(bytes, eos) => replies, events, ran, error := ReceiveResponseChunk(bytes, eos);
      case ResponseTrailers => replies := [ResponseTrailersReply];
      case Unrecognized => error := Some(Error(Unknown, "unknown request type"));
    }

    /** One turn of the loop: everything sent, notified and run is what the stream machine says. */
    method Receive(msg: In) returns (replies: seq<Reply>, events: seq<Event>, ran: seq<Invocation>)
      requires Valid() && status == Running
      modifies this, request, response
      ensures Trace(View(), replies, events, ran) == Deliver(server, Trace(old(View()), [], [], []), msg)
    {
      var sent, fired, called, error := Handle(msg);
      events, ran, replies := fired, called, sent;
      if error.Some? {
        var http := HttpStatus(error.value.code);
        replies := if http.Some? then [ImmediateResponse(http.value, error.value.msg)] else [];
        status := if error.value.code == NilDereference then Crashed else if http.Some? then Replied else Failed;
      }
      assert [] + replies == replies && [] + events == events && [] + ran == ran;
    }
  }
}
