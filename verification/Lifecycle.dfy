/** Whole streams: which events they fire, and which response plugins they run. */
module Lifecycle {
  import opened Common
  import opened Json
  import opened Messages
  import opened Framework
  import opened Handlers
  import opened Protocol
  import opened Fragmentation
  import opened Requests

  // ---------- the configuration the stream machine relies on ----------

  /** A profile never mixes whole-body and chunk plugins, and buffers whenever a whole body is needed. */
  ghost predicate SoundProfile(p: Profile, postProcessors: seq<Processor>) {
    && (p.responsePlugins == [] || p.chunkProcessors == [])
    && (p.responsePlugins != [] ==> p.needsResponseBuffering)
    && (postProcessors != [] ==> p.needsResponseBuffering && p.chunkProcessors == [])
  }

  ghost predicate SoundServer(server: Server) {
    && (forall name :: name in server.profiles ==> SoundProfile(server.profiles[name], server.postProcessors))
    && PicksConfigured(server)
  }

  ghost predicate PicksConfigured(server: Server) {
    server.picker.Some? ==> forall m, c ::
      var k := server.picker.value(m, c, server.profiles);
      k.profile.Some? ==> Configured(server, k.profile.value)
  }

  ghost predicate Configured(server: Server, p: Profile) {
    exists name :: name in server.profiles && server.profiles[name] == p
  }

  // ---------- events ----------

  /** The request direction has ended with a body. */
  predicate HasRequest(p: Phase) { !p.Opening? && !p.RequestOpen? && p.body }
  predicate HasResponse(p: Phase) { p.ResponseClosed? && p.responseBody }

  /** The events of a stream at any time: none; a request; a request, then the response to that very
      request; or, for a request without a body, a response to an empty request. */
  ghost predicate ValidLog(events: seq<Event>) {
    && |events| <= 2
    && (|events| == 2 ==>
          events[0].RequestEvent? && events[1].ResponseEvent? && events[1].request == events[0].request)
    && (|events| == 1 ==> events[0].RequestEvent? || events[0].request.body == map[])
  }

  /** What a running stream in phase p has told the data layer. */
  ghost predicate Logged(p: Phase, t: Trace) {
    var request := t.state.ctx.request;
    && (!HasRequest(p) ==> request.body == map[])
    && |t.events| == (if HasRequest(p) then 1 else 0) + (if HasResponse(p) then 1 else 0)
    && (HasRequest(p) ==> t.events[0] == RequestEvent(request))
    && (HasResponse(p) ==> t.events[|t.events| - 1].ResponseEvent? && t.events[|t.events| - 1].request == request)
  }

  /** What a handler may add to the log. */
  lemma EventsOfTurn(server: Server, s: State, msg: In)
    ensures var h := Dispatch(server, s, msg).handled;
            if msg.RequestBody? && msg.eos && !s.requestBodyComplete then
              h.events == if h.error.None? then [RequestEvent(h.ctx.request)] else []
            else if msg.ResponseBody? && msg.eos && !s.responseBodyComplete then
              |h.events| == 1 && h.events[0].ResponseEvent? && h.events[0].request == h.ctx.request == s.ctx.request
            else
              h.events == [] && h.ctx.request.body == s.ctx.request.body
              && (!msg.RequestHeaders? ==> h.ctx.request == s.ctx.request)
  {
    match msg
    case RequestHeaders(headers, trace, _) =>
      TraceKeepsBody(s.ctx.request.(headers := Ingest(s.ctx.request.headers, Lowered(headers))), trace);
    case ResponseBody(bytes, eos) =>
      BufferedEvents(server, s.ctx, s.responseBody + bytes);
      StreamedEvents(s.ctx, bytes, eos);
    case _ =>
  }

  lemma BufferedEvents(server: Server, c: Context, bytes: Bytes)
    ensures var h := HandleResponseBody(server, c, bytes); h.events == [] && h.ctx.request == c.request
  {
  }

  lemma StreamedEvents(c: Context, bytes: Bytes, eos: bool)
    ensures var h := HandleResponseChunk(c, bytes, eos); h.events == [] && h.ctx.request == c.request
  {
  }

  lemma LogStep(server: Server, p: Phase, t: Trace, msg: In)
    requires t.state.status == Running && Tracks(p, t) && Advance(p, msg).Some? && Logged(p, t)
    ensures var t' := Deliver(server, t, msg);
            && ValidLog(t'.events)
            && (t'.state.status == Running ==> Logged(Advance(p, msg).value, t'))
  {
    EventsOfTurn(server, t.state, msg);
  }

  lemma {:induction false} LogRun(server: Server, p: Phase, t: Trace, msgs: seq<In>)
    requires AdvanceAll(p, msgs).Some? && Tracks(p, t) && ValidLog(t.events)
    requires t.state.status == Running ==> Logged(p, t)
    ensures var t' := DeliverAll(server, t, msgs);
            && ValidLog(t'.events)
            && (t'.state.status == Running ==> Logged(AdvanceAll(p, msgs).value, t'))
    decreases |msgs|
  {
    if t.state.status != Running {
      StoppedStaysPut(server, t, msgs);
    } else if msgs != [] {
      LogStep(server, p, t, msgs[0]);
      DeliverTracks(server, p, t, msgs[0]);
      LogRun(server, Advance(p, msgs[0]).value, Deliver(server, t, msgs[0]), msgs[1..]);
    }
  }

  /** Every well-ordered stream tells the data layer of its request once it is handled and of its response
      once it is complete, in that order and about the same request - also when a plugin ends the stream. */
  lemma StreamEvents(server: Server, cycle: CycleState, msgs: seq<In>)
    requires WellOrdered(msgs)
    ensures var t := DeliverAll(server, Start(cycle), msgs);
            && ValidLog(t.events)
            && (t.state.status == Running ==> Logged(AdvanceAll(Opening, msgs).value, t))
  {
    LogRun(server, Opening, Start(cycle), msgs);
  }

  // ---------- response plugins ----------

  /** The response body as received: every chunk's bytes. */
  function UpstreamBody(msgs: seq<In>): Bytes
    decreases |msgs|
  {
    if msgs == [] then []
    else if msgs[0].ResponseBody? then msgs[0].bytes + UpstreamBody(msgs[1..])
    else UpstreamBody(msgs[1..])
  }

  /** Before a response ends: no response plugin has run, and the profile is the one picked, or the empty
      profile for a request without a body. */
  ghost predicate Untouched(server: Server, p: Phase, received: Bytes, t: Trace) {
    && t.ran == []
    && t.state.responseBody == received
    && (HasRequest(p) ==> Configured(server, t.state.ctx.profile))
    && (!HasRequest(p) ==> t.state.ctx.profile == EmptyProfile)
  }

  lemma ProfileIsConfigured(server: Server, c: Context, bytes: Bytes)
    requires PicksConfigured(server) && HandleRequestBody(server, c, bytes).error.None?
    ensures Configured(server, HandleRequestBody(server, c, bytes).ctx.profile)
    ensures HandleRequestBody(server, c, bytes).ran == []
  {
    var start := c.request.(body := Unmarshal(server.codec, c.request.body, bytes).value);
    var pre := RunProcessors(server.preProcessors, start, c.cycle);
    var k := server.picker.value(pre.message, pre.cycle, server.profiles);
    assert HandleRequestBody(server, c, bytes).ctx.profile == k.profile.value;
  }

  lemma UntouchedStep(server: Server, p: Phase, received: Bytes, t: Trace, msg: In)
    requires PicksConfigured(server)
    requires t.state.status == Running && Tracks(p, t) && Advance(p, msg).Some? && Untouched(server, p, received, t)
    requires !HasResponse(Advance(p, msg).value)
    ensures var t' := Deliver(server, t, msg);
            t'.state.status == Running ==>
              Untouched(server, Advance(p, msg).value, Received(received, msg), t')
  {
    if msg.RequestBody? && msg.eos && !t.state.requestBodyComplete {
      var whole := t.state.requestBody + msg.bytes;
      if HandleRequestBody(server, t.state.ctx, whole).error.None? {
        ProfileIsConfigured(server, t.state.ctx, whole);
      }
    }
  }

  lemma {:induction false} ResponseStaysClosed(p: Phase, msgs: seq<In>)
    requires HasResponse(p) && AdvanceAll(p, msgs).Some?
    ensures HasResponse(AdvanceAll(p, msgs).value)
    decreases |msgs|
  {
    if msgs != [] {
      ResponseStaysClosed(Advance(p, msgs[0]).value, msgs[1..]);
    }
  }

  function Received(received: Bytes, msg: In): Bytes { if msg.ResponseBody? then received + msg.bytes else received }

  lemma ReceivedRest(received: Bytes, msgs: seq<In>)
    requires msgs != []
    ensures Received(received, msgs[0]) + UpstreamBody(msgs[1..]) == received + UpstreamBody(msgs)
  {
    var rest := UpstreamBody(msgs[1..]);
    if msgs[0].ResponseBody? {
      assert received + (msgs[0].bytes + rest) == received + msgs[0].bytes + rest;
    }
  }

  lemma {:induction false} UntouchedRun(server: Server, p: Phase, received: Bytes, t: Trace, msgs: seq<In>)
    requires PicksConfigured(server) && Tracks(p, t)
    requires AdvanceAll(p, msgs).Some? && !HasResponse(AdvanceAll(p, msgs).value)
    requires t.state.status == Running ==> Untouched(server, p, received, t)
    ensures var t' := DeliverAll(server, t, msgs);
            t'.state.status == Running ==>
              Untouched(server, AdvanceAll(p, msgs).value, received + UpstreamBody(msgs), t')
    decreases |msgs|
  {
    if t.state.status != Running {
      StoppedStaysPut(server, t, msgs);
    } else if msgs == [] {
      assert received + [] == received;
    } else {
      var q, next := Advance(p, msgs[0]).value, Deliver(server, t, msgs[0]);
      if HasResponse(q) {
        ResponseStaysClosed(q, msgs[1..]);
      }
      UntouchedStep(server, p, received, t, msgs[0]);
      DeliverTracks(server, p, t, msgs[0]);
      UntouchedRun(server, q, Received(received, msgs[0]), next, msgs[1..]);
      ReceivedRest(received, msgs);
    }
  }

  /** The plugins were called once each, in order, up to a failure that ended the stream, the first of
      them on the parsed body; none was called if there is none or the body does not parse. */
  ghost predicate RanAll(t: Trace, plugins: seq<Processor>, parsed: Option<Object>) {
    if plugins == [] || parsed.None? then t.ran == []
    else
      && CalledInOrder(t.ran, plugins)
      && t.ran != [] && t.ran[0].body == parsed.value
      && (t.state.status == Running ==> |t.ran| == |plugins|)
  }

  /** Plugin calls when the response's end of stream arrives. */
  lemma FinalChunkRuns(server: Server, t: Trace, last: Bytes)
    requires t.state.status == Running && !t.state.responseBodyComplete && t.ran == []
    requires SoundProfile(t.state.ctx.profile, server.postProcessors)
    ensures var t' := Deliver(server, t, ResponseBody(last, true));
            var plugins := t.state.ctx.profile.responsePlugins + server.postProcessors;
            var parsed := ParseResponse(server.codec, t.state.ctx.response.body, t.state.responseBody + last);
            RanAll(t', plugins, parsed)
  {
    var whole := t.state.responseBody + last;
    var plugins := t.state.ctx.profile.responsePlugins + server.postProcessors;
    var parsed := ParseResponse(server.codec, t.state.ctx.response.body, whole);
    if plugins == [] {
      assert t.state.ctx.profile.responsePlugins == [] && server.postProcessors == [];
    } else if parsed.Some? {
      PluginsRunInOrder(plugins, t.state.ctx.response.(body := parsed.value), t.state.ctx.cycle);
    }
    if !t.state.ctx.profile.needsResponseBuffering {
      assert HandleResponseChunk(t.state.ctx, last, true).ran == [];
    }
  }

  lemma {:induction false} NoMoreRuns(server: Server, t: Trace, msgs: seq<In>)
    requires t.state.responseBodyComplete
    ensures DeliverAll(server, t, msgs).ran == t.ran
    decreases |msgs|
  {
    if msgs != [] {
      RunsOnlyAtEnd(server, t, msgs[0]);
      NoMoreRuns(server, Deliver(server, t, msgs[0]), msgs[1..]);
    }
  }

  lemma RunsOnlyAtEnd(server: Server, t: Trace, msg: In)
    requires t.state.responseBodyComplete
    ensures Deliver(server, t, msg).ran == t.ran && Deliver(server, t, msg).state.responseBodyComplete
  {
    assert t.ran + [] == t.ran;
  }

  /** No response plugin is skipped, repeated or reordered: in a stream whose request had a body, the end of
      the response makes the picked profile's plugins and then the post-processors run once each, in
      configuration order, the first on the parsed whole body, up to the first failure; nothing later in
      the stream runs one again. */
  lemma NoResponsePluginIsSkipped(server: Server, cycle: CycleState, front: seq<In>, last: Bytes, more: seq<In>)
    requires SoundServer(server) && AdvanceAll(Opening, front) == Some(ResponseOpen(true))
    requires DeliverAll(server, Start(cycle), front).state.status == Running
    ensures var t0 := DeliverAll(server, Start(cycle), front);
            var t := DeliverAll(server, Start(cycle), front + [ResponseBody(last, true)] + more);
            var profile := t0.state.ctx.profile;
            var plugins := profile.responsePlugins + server.postProcessors;
            var parsed := ParseResponse(server.codec, t0.state.ctx.response.body, UpstreamBody(front) + last);
            && Configured(server, profile)
            && RanAll(t, plugins, parsed)
  {
    UntouchedRun(server, Opening, [], Start(cycle), front);
    assert [] + UpstreamBody(front) == UpstreamBody(front);
    var t0 := DeliverAll(server, Start(cycle), front);
    var t1 := Deliver(server, t0, ResponseBody(last, true));
    DeliverAllTracks(server, Opening, Start(cycle), front);
    DeliverAllOfConcat(server, Start(cycle), front, [ResponseBody(last, true)]);
    DeliverAllOfConcat(server, Start(cycle), front + [ResponseBody(last, true)], more);
    assert DeliverAll(server, t0, [ResponseBody(last, true)]) == t1;
    FinalChunkRuns(server, t0, last);
    NoMoreRuns(server, t1, more);
    if t1.state.status != Running {
      StoppedStaysPut(server, t1, more);
    }
  }

  lemma {:induction false} BodylessRuns(server: Server, t: Trace, msgs: seq<In>, p: Phase)
    requires AdvanceAll(p, msgs).Some? && !HasRequest(AdvanceAll(p, msgs).value)
    requires t.state.ctx.profile == EmptyProfile && t.ran == []
    requires t.state.requestBodyComplete ==> HasRequest(p) || t.state.status != Running
    ensures DeliverAll(server, t, msgs).ran == []
    decreases |msgs|
  {
    if t.state.status != Running {
      StoppedStaysPut(server, t, msgs);
    } else if msgs != [] {
      var q := Advance(p, msgs[0]).value;
      if HasRequest(q) {
        BodyFlagStays(q, msgs[1..]);
      }
      BodylessStep(server, t, msgs[0]);
      BodylessRuns(server, Deliver(server, t, msgs[0]), msgs[1..], q);
    }
  }

  lemma BodylessStep(server: Server, t: Trace, msg: In)
    requires t.state.ctx.profile == EmptyProfile && t.ran == [] && (msg.RequestBody? ==> !msg.eos)
    ensures var t' := Deliver(server, t, msg);
            && t'.state.ctx.profile == EmptyProfile && t'.ran == []
            && t'.state.requestBodyComplete == t.state.requestBodyComplete
  {
    assert StreamChunk(t.state.ctx, [], false).ran == [];
  }

  /** A request whose headers ended it leaves the empty profile in place: its response is streamed and no
      post-processor ever runs, even though every configured profile buffers for them. */
  lemma BodylessRequestsSkipPostProcessors(server: Server, cycle: CycleState, msgs: seq<In>)
    requires WellOrdered(msgs) && !HasRequest(AdvanceAll(Opening, msgs).value)
    ensures DeliverAll(server, Start(cycle), msgs).ran == []
  {
    BodylessRuns(server, Start(cycle), msgs, Opening);
  }

  /** So configured post-processors see a parseable response exactly when its request had a body. */
  lemma PostProcessorsRunIffRequestHadBody(
    server: Server, cycle: CycleState, front: seq<In>, body: bool, last: Bytes)
    requires SoundServer(server) && server.postProcessors != []
    requires AdvanceAll(Opening, front) == Some(ResponseOpen(body))
    requires var t0 := DeliverAll(server, Start(cycle), front);
             && t0.state.status == Running
             && ParseResponse(server.codec, t0.state.ctx.response.body, UpstreamBody(front) + last).Some?
    ensures DeliverAll(server, Start(cycle), front + [ResponseBody(last, true)]).ran != [] <==> body
  {
    var msgs := front + [ResponseBody(last, true)];
    assert msgs + [] == msgs;
    if body {
      NoResponsePluginIsSkipped(server, cycle, front, last, []);
    } else {
      AdvanceSnoc(Opening, front, ResponseBody(last, true));
      BodylessRequestsSkipPostProcessors(server, cycle, msgs);
    }
  }
}
