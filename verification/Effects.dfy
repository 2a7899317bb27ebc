/** What plugins do to a stream: from the message Envoy sent, call by call, to the message it gets back. */
module Effects {
  import opened Common
  import opened Json
  import opened Messages
  import opened Framework
  import opened Chunking
  import opened Handlers
  import opened Protocol
  import opened Fragmentation
  import opened Requests
  import opened Responses
  import opened Lifecycle
  import Sse
  import Text

  // ---------- headers ----------

  /** The key under which an entry is kept: request headers are folded to lower case. */
  function KeyOf(fold: bool, key: string): string { if fold then Text.ToLower(key) else key }

  ghost predicate Names(pairs: seq<(string, string)>, fold: bool, key: string) {
    exists i :: 0 <= i < |pairs| && KeyOf(fold, pairs[i].0) == key
  }

  /** Entry i is the last with its key. */
  ghost predicate LastAt(pairs: seq<(string, string)>, fold: bool, i: int, key: string, value: string) {
    && 0 <= i < |pairs| && KeyOf(fold, pairs[i].0) == key && pairs[i].1 == value
    && forall j :: i < j < |pairs| ==> KeyOf(fold, pairs[j].0) != key
  }

  ghost predicate Gives(pairs: seq<(string, string)>, fold: bool, key: string, value: string) {
    exists i :: LastAt(pairs, fold, i, key, value)
  }

  predicate Has(h: Headers, key: string, value: string) { key in h && h[key] == value }

  /** Each key has the value its last entry gives it. */
  ghost predicate Ingested(pairs: seq<(string, string)>, fold: bool, h: Headers) {
    forall k, v :: Has(h, k, v) <==> Gives(pairs, fold, k, v)
  }

  lemma GivesFront(pairs: seq<(string, string)>, fold: bool, key: string, value: string)
    requires pairs != []
    ensures var here := KeyOf(fold, pairs[0].0) == key;
            && (Names(pairs, fold, key) <==> here || Names(pairs[1..], fold, key))
            && (Gives(pairs, fold, key, value) <==>
                Gives(pairs[1..], fold, key, value) || (here && pairs[0].1 == value && !Names(pairs[1..], fold, key)))
  {
    var rest := pairs[1..];
    assert forall i :: 0 <= i < |rest| ==> rest[i] == pairs[i + 1];
    assert forall i :: 0 < i < |pairs| ==> pairs[i] == rest[i - 1];
    if i :| LastAt(rest, fold, i, key, value) {
      assert LastAt(pairs, fold, i + 1, key, value);
    }
    if i :| LastAt(pairs, fold, i, key, value) {
      assert i > 0 ==> LastAt(rest, fold, i - 1, key, value);
    }
    if KeyOf(fold, pairs[0].0) == key && pairs[0].1 == value && !Names(rest, fold, key) {
      assert LastAt(pairs, fold, 0, key, value);
    }
  }

  function Folded(fold: bool, pairs: seq<(string, string)>): seq<(string, string)> {
    if fold then Lowered(pairs) else pairs
  }

  lemma {:induction false} IngestGives(h: Headers, pairs: seq<(string, string)>, fold: bool, key: string, value: string)
    ensures Has(Ingest(h, Folded(fold, pairs)), key, value) <==>
            Gives(pairs, fold, key, value) || (!Names(pairs, fold, key) && Has(h, key, value))
    decreases |pairs|
  {
    if pairs != [] {
      var k := KeyOf(fold, pairs[0].0);
      assert Folded(fold, pairs)[1..] == Folded(fold, pairs[1..]);
      GivesFront(pairs, fold, key, value);
      IngestGives(h[k := pairs[0].1], pairs[1..], fold, key, value);
    }
  }

  lemma IngestIsExact(pairs: seq<(string, string)>, fold: bool)
    ensures Ingested(pairs, fold, Ingest(map[], Folded(fold, pairs)))
  {
    forall k, v ensures Has(Ingest(map[], Folded(fold, pairs)), k, v) <==> Gives(pairs, fold, k, v) {
      IngestGives(map[], pairs, fold, k, v);
    }
  }

  lemma {:induction false} TraceGives(m: Message, trace: seq<(string, string)>, key: string, value: string)
    ensures Has(ApplyAll(m, TraceOps(trace)).headers, key, value) <==>
            Gives(trace, true, key, value) || (!Names(trace, true, key) && Has(m.headers, key, value))
    decreases |trace|
  {
    if trace != [] {
      var ops := TraceOps(trace);
      assert ops[1..] == TraceOps(trace[1..]);
      GivesFront(trace, true, key, value);
      TraceGives(Apply(m, ops[0]), trace[1..], key, value);
    }
  }

  lemma {:induction false} TraceOnlySets(m: Message, trace: seq<(string, string)>, key: string)
    ensures var n := ApplyAll(m, TraceOps(trace));
            n.removed <= m.removed && (key in n.mutated ==> key in m.mutated || Names(trace, true, key))
    decreases |trace|
  {
    if trace != [] {
      var ops := TraceOps(trace);
      assert ops[1..] == TraceOps(trace[1..]);
      GivesFront(trace, true, key, "");
      TraceOnlySets(Apply(m, ops[0]), trace[1..], key);
    }
  }

  /** A request as it stands once its headers are in: each name has its last value, the trace headers replace those
      Envoy sent, and the delta sets nothing else. */
  ghost predicate Arrived(headers: seq<(string, string)>, trace: seq<(string, string)>, m: Message) {
    && m.body == map[] && !m.bodyMutated && m.removed == {}
    && (forall k :: k in m.mutated ==> Names(trace, true, k))
    && exists ingress :: Ingested(headers, true, ingress) && Faithful(ingress, m) && Traced(ingress, trace, m.headers)
  }

  ghost predicate Traced(ingress: Headers, trace: seq<(string, string)>, h: Headers) {
    forall k, v :: Has(h, k, v) <==> Gives(trace, true, k, v) || (!Names(trace, true, k) && Has(ingress, k, v))
  }

  lemma TraceArrives(ingress: Headers, m: Message, trace: seq<(string, string)>)
    requires m == NewMessage.(headers := ingress)
    ensures var n := ApplyAll(m, TraceOps(trace));
            && n.removed == {} && (forall k :: k in n.mutated ==> Names(trace, true, k))
            && Traced(ingress, trace, n.headers)
  {
    var n := ApplyAll(m, TraceOps(trace));
    TraceOnlySets(m, trace, "");
    forall k | k in n.mutated ensures Names(trace, true, k) {
      TraceOnlySets(m, trace, k);
    }
    forall k, v
      ensures Has(n.headers, k, v) <==> Gives(trace, true, k, v) || (!Names(trace, true, k) && Has(ingress, k, v))
    {
      TraceGives(m, trace, k, v);
    }
  }

  lemma HeadersArrive(c: Context, headers: seq<(string, string)>, trace: seq<(string, string)>, eos: bool)
    requires c.request == NewMessage
    ensures Arrived(headers, trace, HandleRequestHeaders(c, headers, trace, eos).ctx.request)
  {
    var ingress := Ingest(map[], Lowered(headers));
    var m := NewMessage.(headers := ingress);
    IngestIsExact(headers, true);
    assert Mutate(ingress, map[], {}) == ingress;
    DeltaIsFaithful(ingress, m, TraceOps(trace));
    TraceKeepsBody(m, trace);
    TraceArrives(ingress, m, trace);
  }

  // ---------- the request body ----------

  /** What is sent of a message: its printed body, with the length set, once a plugin has changed it. */
  ghost predicate Sends(codec: Codec, m: Message, received: Bytes, sent: Bytes) {
    if m.bodyMutated then codec.encode(m.body) == Some(sent) else sent == received
  }

  /** The message with the length of what is sent. */
  function Measured(m: Message, sent: Bytes): Message { Apply(m, SetHeader(CONTENT_LENGTH, Text.Itoa(|sent|))) }

  /** The pre-processors lead from `start` to `pre`, where the picker picks this profile, whose plugins lead on to
      `final`. */
  ghost predicate Processed(server: Server, start: Point, pre: Point, profile: Profile, final: Point) {
    && Leads(server.preProcessors, start, pre)
    && server.picker.Some?
    && var pick := server.picker.value(pre.message, pre.cycle, server.profiles);
       pick.profile == Some(profile) && Leads(profile.requestPlugins, Point(pre.message, pick.cycle), final)
  }

  /** The context a successful request leaves, and what it sends. */
  ghost predicate Succeeds(server: Server, start: Point, received: Bytes, c: Context, sent: Bytes) {
    exists pre, final ::
      && Processed(server, start, pre, c.profile, final)
      && Sends(server.codec, final.message, received, sent)
      && c.request == Measured(final.message, sent) && c.cycle == final.cycle
  }

  /** A failing pre-processor or request plugin; no picker; a picker that fails; a body that cannot be printed. */
  ghost predicate RequestFails(server: Server, start: Point, e: Error) {
    || (exists to :: Breaks(server.preProcessors, start, to, e))
    || (exists pre ::
          && Leads(server.preProcessors, start, pre)
          && (if server.picker.None? then e.code == NilDereference else
                var pick := server.picker.value(pre.message, pre.cycle, server.profiles);
                if pick.profile.None? then e.code == Internal
                else exists to :: Breaks(pick.profile.value.requestPlugins, Point(pre.message, pick.cycle), to, e)))
    || (e.code == Unknown && exists pre, profile, final ::
          && Processed(server, start, pre, profile, final)
          && final.message.bodyMutated && server.codec.encode(final.message.body).None?)
  }

  /** The pipeline alone. */
  lemma PipelineIsChain(server: Server, c: Context)
    ensures var h, start := RunRequestPipeline(server, c), Point(c.request, c.cycle);
            && (h.error.None? ==> exists pre ::
                  Processed(server, start, pre, h.ctx.profile, Point(h.ctx.request, h.ctx.cycle)))
            && (h.error.Some? ==> RequestFails(server, start, h.error.value))
  {
    var start, r := Point(c.request, c.cycle), RunProcessors(server.preProcessors, c.request, c.cycle);
    var pre := Point(r.message, r.cycle);
    if r.error.Some? {
      RunFailsByCall(server.preProcessors, start, pre, r.error.value);
    } else {
      RunIsChain(server.preProcessors, start, pre);
      if server.picker.Some? {
        var pick := server.picker.value(pre.message, pre.cycle, server.profiles);
        if pick.profile.Some? {
          PickedIsChain(server, start, pre, pick, pick.profile.value);
        }
      }
    }
  }

  lemma PickedIsChain(server: Server, start: Point, pre: Point, pick: Pick, profile: Profile)
    requires Leads(server.preProcessors, start, pre) && server.picker.Some? && pick.profile == Some(profile)
    requires pick == server.picker.value(pre.message, pre.cycle, server.profiles)
    ensures var r := RunProcessors(profile.requestPlugins, pre.message, pick.cycle);
            && (r.error.None? ==> Processed(server, start, pre, profile, Point(r.message, r.cycle)))
            && (r.error.Some? ==> RequestFails(server, start, r.error.value))
  {
    var from, r := Point(pre.message, pick.cycle), RunProcessors(profile.requestPlugins, pre.message, pick.cycle);
    var to := Point(r.message, r.cycle);
    if r.error.Some? {
      RunFailsByCall(profile.requestPlugins, from, to, r.error.value);
    } else {
      RunIsChain(profile.requestPlugins, from, to);
    }
  }

  /** The message and cycle state the pre-processors start from: the document read into the request's body. */
  function Parsed(codec: Codec, c: Context, o: Object): Point { Point(c.request.(body := c.request.body + o), c.cycle) }

  /** The request body handler: a body that is no JSON is a bad request; otherwise every pre-processor and every
      plugin of the picked profile is called in order, each on what its predecessors left, and the outcome is sent,
      or the first failure is the handler's. */
  lemma HandlerRunsEveryPlugin(server: Server, c: Context, bytes: Bytes)
    ensures var h, o := HandleRequestBody(server, c, bytes), server.codec.decode(bytes);
            if o.None? then h.error.Some? && h.error.value.code == BadRequest else
              var start := Parsed(server.codec, c, o.value);
              && (h.error.None? ==> Succeeds(server, start, bytes, h.ctx, Payload(true, h.replies)))
              && (h.error.Some? ==> RequestFails(server, start, h.error.value))
  {
    var o := server.codec.decode(bytes);
    if o.Some? {
      var c1 := c.(request := c.request.(body := c.request.body + o.value));
      assert Point(c1.request, c1.cycle) == Parsed(server.codec, c, o.value);
      PipelineIsChain(server, c1);
      var run := RunRequestPipeline(server, c1);
      if run.error.None? {
        PipelineIsSent(server, c, bytes, run);
      }
    }
  }

  lemma PipelineIsSent(server: Server, c: Context, bytes: Bytes, run: Handled)
    requires server.codec.decode(bytes).Some? && run.error.None?
    requires run == RunRequestPipeline(
      server, c.(request := c.request.(body := c.request.body + server.codec.decode(bytes).value)))
    requires exists pre :: Processed(
      server, Parsed(server.codec, c, server.codec.decode(bytes).value), pre, run.ctx.profile,
      Point(run.ctx.request, run.ctx.cycle))
    ensures var h, start := HandleRequestBody(server, c, bytes), Parsed(server.codec, c, server.codec.decode(bytes).value);
            && (h.error.None? ==> Succeeds(server, start, bytes, h.ctx, Payload(true, h.replies)))
            && (h.error.Some? ==> RequestFails(server, start, h.error.value))
  {
    var h := HandleRequestBody(server, c, bytes);
    var out := OutgoingBody(server.codec, run.ctx.request, bytes);
    if out.Some? {
      PayloadOfAnswer(true, h.replies[0], out.value);
      assert h.replies == [h.replies[0]] + RequestBodyReplies(out.value);
    }
  }

  /** What an error that ends a stream makes it send. */
  function LastWords(e: Error): seq<Reply> {
    if HttpStatus(e.code).Some? then [ImmediateResponse(HttpStatus(e.code).value, e.msg)] else []
  }

  /** Errors of the client's making have a status in the 400s and the server's own in the 500s, each its own; the
      others have none and end the gRPC stream instead. */
  lemma StatusTellsCode(a: ErrorCode, b: ErrorCode)
    ensures HttpStatus(a).Some? ==> 400 <= HttpStatus(a).value < 600
    ensures HttpStatus(a).Some? && HttpStatus(a).value < 500 <==>
            a in {BadRequest, Unauthorized, Forbidden, NotFound, ResourceExhausted}
    ensures HttpStatus(a).Some? && HttpStatus(a).value >= 500 <==> a in {Internal, ServiceUnavailable}
    ensures HttpStatus(a).Some? && HttpStatus(a) == HttpStatus(b) ==> a == b
  {
  }

  /** The stream has been ended by this error: nothing but its immediate response, if it has one, has followed. */
  ghost predicate EndedBy(t: Trace, e: Error, t': Trace) {
    && t'.state.status == (if e.code == NilDereference then Crashed
                           else if HttpStatus(e.code).Some? then Replied else Failed)
    && t'.replies == t.replies + LastWords(e)
  }

  /** A message of an unknown kind ends the gRPC stream. */
  lemma UnrecognizedEndsStream(server: Server, t: Trace)
    requires t.state.status == Running
    ensures exists e: Error :: HttpStatus(e.code).None? && EndedBy(t, e, Deliver(server, t, Unrecognized))
    ensures Deliver(server, t, Unrecognized).state.status == Failed
  {
    assert EndedBy(t, Error(Unknown, "unknown request type"), Deliver(server, t, Unrecognized));
  }

  function WithRequestBody(t: Trace, bytes: Bytes): Trace { t.(state := t.state.(requestBody := bytes)) }

  lemma ChunkIsCollected(server: Server, t: Trace, msg: In)
    requires t.state.status == Running && !t.state.requestBodyComplete && msg.RequestBody? && !msg.eos
    ensures Deliver(server, t, msg) == WithRequestBody(t, t.state.requestBody + msg.bytes)
  {
    SilentDelivery(server, t, msg);
  }

  lemma OneMoreChunk(held: Bytes, msgs: seq<In>)
    requires msgs != [] && msgs[0].RequestBody? && !msgs[0].eos
    ensures held + DeliveredBody(msgs) == held + msgs[0].bytes + DeliveredBody(msgs[1..])
  {
    var bytes, rest := msgs[0].bytes, DeliveredBody(msgs[1..]);
    assert held + (bytes + rest) == held + bytes + rest;
  }

  /** The chunks before the last are only collected. */
  lemma {:induction false} ChunksAreCollected(server: Server, t: Trace, msgs: seq<In>)
    requires t.state.status == Running && !t.state.requestBodyComplete
    requires AdvanceAll(RequestOpen, msgs) == Some(RequestOpen)
    ensures DeliverAll(server, t, msgs) == WithRequestBody(t, t.state.requestBody + DeliveredBody(msgs))
    decreases |msgs|
  {
    var held := t.state.requestBody;
    if msgs == [] {
      assert held + [] == held;
    } else {
      var next := WithRequestBody(t, held + msgs[0].bytes);
      StillOpen(msgs);
      ChunkIsCollected(server, t, msgs[0]);
      ChunksAreCollected(server, next, msgs[1..]);
      OneMoreChunk(held, msgs);
      assert WithRequestBody(next, held + DeliveredBody(msgs)) == WithRequestBody(t, held + DeliveredBody(msgs));
    }
  }

  lemma StillOpen(msgs: seq<In>)
    requires msgs != [] && AdvanceAll(RequestOpen, msgs) == Some(RequestOpen)
    ensures msgs[0].RequestBody? && !msgs[0].eos && AdvanceAll(RequestOpen, msgs[1..]) == Some(RequestOpen)
  {
    if msgs[0].RequestBody? && msgs[0].eos {
      BodyFlagStays(RequestClosed(true), msgs[1..]);
    }
  }

  /** Before the end of the request's body: its headers have arrived, and its chunks are kept. */
  lemma RequestArrives(server: Server, cycle: CycleState, front: seq<In>)
    requires AdvanceAll(Opening, front) == Some(RequestOpen)
    ensures front != [] && front[0].RequestHeaders?
    ensures var t := DeliverAll(server, Start(cycle), front);
            && t.state.status == Running && !t.state.requestBodyComplete
            && t.replies == [] && t.state.ctx.cycle == cycle
            && t.state.requestBody == DeliveredBody(front)
            && Arrived(front[0].headers, front[0].trace, t.state.ctx.request)
  {
    var first := front[0];
    var t1 := Deliver(server, Start(cycle), first);
    if first.eos {
      BodyFlagStays(RequestClosed(false), front[1..]);
    }
    HeadersArrive(Start(cycle).state.ctx, first.headers, first.trace, false);
    ChunksAreCollected(server, t1, front[1..]);
    assert [] + DeliveredBody(front) == DeliveredBody(front);
  }

  /** The end of the request's body. */
  lemma RequestEnds(server: Server, t: Trace, last: Bytes)
    requires t.state.status == Running && !t.state.requestBodyComplete && t.replies == []
    ensures var t', whole := Deliver(server, t, RequestBody(last, true)), t.state.requestBody + last;
            var o := server.codec.decode(whole);
            if o.None? then exists e: Error :: e.code == BadRequest && EndedBy(t, e, t') else
              var start := Parsed(server.codec, t.state.ctx, o.value);
              || (t'.state.status == Running &&
                  Succeeds(server, start, whole, t'.state.ctx, Payload(true, t'.replies)))
              || (exists e :: RequestFails(server, start, e) && EndedBy(t, e, t'))
  {
    var t', whole := Deliver(server, t, RequestBody(last, true)), t.state.requestBody + last;
    var h := HandleRequestBody(server, t.state.ctx, whole);
    HandlerRunsEveryPlugin(server, t.state.ctx, whole);
    if h.error.Some? {
      assert EndedBy(t, h.error.value, t');
    } else {
      assert [] + h.replies == h.replies;
    }
  }

  /** Nothing later touches the request or what was sent for it. */
  lemma {:induction false} RequestStaysSettled(server: Server, p: Phase, t: Trace, msgs: seq<In>)
    requires Tracks(p, t) && t.state.status == Running && HasRequest(p) && AdvanceAll(p, msgs).Some?
    ensures var t' := DeliverAll(server, t, msgs);
            t'.state.ctx.request == t.state.ctx.request && Payload(true, t'.replies) == Payload(true, t.replies)
    decreases |msgs|
  {
    if msgs != [] {
      var t1 := Deliver(server, t, msgs[0]);
      RequestIsSettled(server, t.state, msgs[0]);
      AppendForeign(t.replies, RepliesAfter(Dispatch(server, t.state, msgs[0]).handled));
      DeliverTracks(server, p, t, msgs[0]);
      if t1.state.status != Running {
        StoppedStaysPut(server, t1, msgs[1..]);
      } else {
        RequestStaysSettled(server, Advance(p, msgs[0]).value, t1, msgs[1..]);
      }
    }
  }

  lemma DeliveredAround(server: Server, t: Trace, front: seq<In>, msg: In, more: seq<In>)
    ensures DeliverAll(server, t, front + [msg]) == Deliver(server, DeliverAll(server, t, front), msg)
    ensures DeliverAll(server, t, front + [msg] + more) ==
            DeliverAll(server, Deliver(server, DeliverAll(server, t, front), msg), more)
  {
    var t0 := DeliverAll(server, t, front);
    DeliverAllOfConcat(server, t, front, [msg]);
    DeliverAllOfConcat(server, t, front + [msg], more);
    assert DeliverAll(server, t0, [msg]) == Deliver(server, t0, msg);
  }

  /** From Envoy's messages to the upstream's request: over every well-ordered stream, a request body that ends is
      parsed and handed through every pre-processor and every plugin of the picked profile, in order and each on
      what its predecessors left; what they made of it is what the upstream gets, whatever follows - or the first
      failure ends the stream with the reply for its code and nothing is sent. */
  lemma RequestRunsEveryPlugin(server: Server, cycle: CycleState, front: seq<In>, last: Bytes, more: seq<In>)
    requires AdvanceAll(Opening, front) == Some(RequestOpen) && AdvanceAll(RequestClosed(true), more).Some?
    ensures var t0 := DeliverAll(server, Start(cycle), front);
            var t1 := Deliver(server, t0, RequestBody(last, true));
            var t := DeliverAll(server, Start(cycle), front + [RequestBody(last, true)] + more);
            var whole := DeliveredBody(front) + last;
            && Arrived(front[0].headers, front[0].trace, t0.state.ctx.request) && t0.state.ctx.cycle == cycle
            && var o := server.codec.decode(whole);
               if o.None? then exists e: Error :: e.code == BadRequest && EndedBy(t0, e, t) else
                 var start := Parsed(server.codec, t0.state.ctx, o.value);
                 || (&& Succeeds(server, start, whole, t1.state.ctx, Payload(true, t.replies))
                     && t.state.ctx.request == t1.state.ctx.request)
                 || (exists e :: RequestFails(server, start, e) && EndedBy(t0, e, t))
  {
    var t0 := DeliverAll(server, Start(cycle), front);
    var t1 := Deliver(server, t0, RequestBody(last, true));
    RequestArrives(server, cycle, front);
    RequestEnds(server, t0, last);
    DeliveredAround(server, Start(cycle), front, RequestBody(last, true), more);
    if t1.state.status != Running {
      StoppedStaysPut(server, t1, more);
    } else {
      DeliverAllTracks(server, Opening, Start(cycle), front);
      DeliverTracks(server, RequestOpen, t0, RequestBody(last, true));
      RequestStaysSettled(server, RequestClosed(true), t1, more);
    }
  }

  /** A request without a body is answered at once with what its headers have become. */
  lemma BodylessRequestIsAnswered(
    server: Server, cycle: CycleState, headers: seq<(string, string)>, trace: seq<(string, string)>)
    ensures var t := Deliver(server, Start(cycle), RequestHeaders(headers, trace, true));
            var request := t.state.ctx.request;
            && t.state.status == Running && Arrived(headers, trace, request)
            && |t.replies| == 1 && t.replies[0].RequestHeadersReply?
            && (if request.mutated == map[] then t.replies[0].mutation == None
                else t.replies[0].mutation == Some(HeaderMutation(request.mutated, {})))
  {
    HeadersArrive(Start(cycle).state.ctx, headers, trace, true);
  }

  // ---------- response headers ----------

  /** Nothing has come of the response yet. */
  predicate BeforeResponse(p: Phase) { p.Opening? || p.RequestOpen? || p.RequestClosed? }

  lemma {:induction false} ResponseIsNew(server: Server, p: Phase, t: Trace, msgs: seq<In>)
    requires AdvanceAll(p, msgs).Some? && BeforeResponse(AdvanceAll(p, msgs).value)
    requires t.state.ctx.response == NewMessage
    ensures DeliverAll(server, t, msgs).state.ctx.response == NewMessage
    decreases |msgs|
  {
    if t.state.status != Running {
      StoppedStaysPut(server, t, msgs);
    } else if msgs != [] {
      var q := Advance(p, msgs[0]).value;
      ResponseStaysBegun(q, msgs[1..]);
      if msgs[0].RequestBody? {
        RequestBodyLeavesResponse(server, t.state.ctx, t.state.requestBody + msgs[0].bytes);
      }
      ResponseIsNew(server, q, Deliver(server, t, msgs[0]), msgs[1..]);
    }
  }

  lemma {:induction false} ResponseStaysBegun(p: Phase, msgs: seq<In>)
    requires AdvanceAll(p, msgs).Some? && BeforeResponse(AdvanceAll(p, msgs).value)
    ensures BeforeResponse(p)
    decreases |msgs|
  {
    if msgs != [] {
      ResponseStaysBegun(Advance(p, msgs[0]).value, msgs[1..]);
    }
  }

  /** The response headers handler on a new response. */
  lemma ResponseHeadersRun(
    server: Server, c: Context, headers: seq<(string, string)>, eos: bool, ingress: Headers)
    requires c.response == NewMessage && ingress == Ingest(map[], headers)
    ensures var h, start := HandleResponseHeaders(server, c, headers, eos), Point(NewMessage.(headers := ingress), c.cycle);
            && (h.error.None? ==>
                  && Leads(server.headersPostProcessors, start, Point(h.ctx.response, h.ctx.cycle))
                  && Faithful(ingress, h.ctx.response)
                  && h.replies == if eos then [ResponseHeadersReply(OptionalMutation(h.ctx.response), false)] else [])
            && (h.error.Some? ==> exists to :: Breaks(server.headersPostProcessors, start, to, h.error.value))
  {
    var m := NewMessage.(headers := ingress);
    var r := RunProcessors(server.headersPostProcessors, m, c.cycle);
    assert Mutate(ingress, map[], {}) == ingress;
    PluginsKeepDeltaFaithful(ingress, server.headersPostProcessors, m, c.cycle);
    if r.error.None? {
      RunIsChain(server.headersPostProcessors, Point(m, c.cycle), Point(r.message, r.cycle));
    } else {
      RunFailsByCall(server.headersPostProcessors, Point(m, c.cycle), Point(r.message, r.cycle), r.error.value);
    }
  }

  /** The response as it stands once its headers are in: each name has its last value, and every header
      post-processor has been called in order. */
  ghost predicate ResponseArrived(server: Server, headers: seq<(string, string)>, cycle: CycleState, c: Context) {
    exists ingress ::
      && Ingested(headers, false, ingress) && Faithful(ingress, c.response)
      && Leads(server.headersPostProcessors, Point(NewMessage.(headers := ingress), cycle), Point(c.response, c.cycle))
  }

  ghost predicate HeadersFail(server: Server, headers: seq<(string, string)>, cycle: CycleState, e: Error) {
    exists ingress, to ::
      Ingested(headers, false, ingress) &&
      Breaks(server.headersPostProcessors, Point(NewMessage.(headers := ingress), cycle), to, e)
  }

  /** Over every well-ordered stream the response starts from the headers the upstream sent, handed through every
      header post-processor; without a body it is answered at once with their delta. A failing one ends the stream. */
  lemma ResponseHeadersArrive(
    server: Server, cycle: CycleState, front: seq<In>, body: bool, headers: seq<(string, string)>, eos: bool)
    requires AdvanceAll(Opening, front) == Some(RequestClosed(body))
    requires DeliverAll(server, Start(cycle), front).state.status == Running
    ensures var t0 := DeliverAll(server, Start(cycle), front);
            var t := DeliverAll(server, Start(cycle), front + [ResponseHeaders(headers, eos)]);
            || (&& t.state.status == Running
                && ResponseArrived(server, headers, t0.state.ctx.cycle, t.state.ctx)
                && t.replies == t0.replies + (if !eos then [] else
                     [ResponseHeadersReply(OptionalMutation(t.state.ctx.response), false)]))
            || (exists e :: HeadersFail(server, headers, t0.state.ctx.cycle, e) && EndedBy(t0, e, t))
  {
    var t0, msg := DeliverAll(server, Start(cycle), front), ResponseHeaders(headers, eos);
    var t := Deliver(server, t0, msg);
    DeliveredAround(server, Start(cycle), front, msg, []);
    ResponseIsNew(server, Opening, Start(cycle), front);
    IngestIsExact(headers, false);
    ResponseHeadersRun(server, t0.state.ctx, headers, eos, Ingest(map[], headers));
    var h := HandleResponseHeaders(server, t0.state.ctx, headers, eos);
    if h.error.Some? {
      assert EndedBy(t0, h.error.value, t);
    }
  }

  // ---------- buffered responses ----------

  /** The body as JSON, read into what the body held, else as a summarised event stream. */
  ghost predicate Reads(codec: Codec, held: Object, bytes: Bytes, o: Object) {
    if codec.decode(bytes).Some? then o == held + codec.decode(bytes).value else Sse.ParseSse(codec, bytes) == Some(o)
  }

  ghost predicate Unreadable(codec: Codec, bytes: Bytes) {
    codec.decode(bytes).None? && Sse.ParseSse(codec, bytes).None?
  }

  /** The profile's plugins, then the post-processors. */
  function BodyPlugins(server: Server, c: Context): seq<Processor> { c.profile.responsePlugins + server.postProcessors }

  /** What a client gets of a whole response: without plugins, or when the body cannot be read, what the upstream
      sent; otherwise what all plugins, called in order, have made of it. */
  ghost predicate Returns(server: Server, c: Context, whole: Bytes, response: Message, sent: Bytes) {
    if BodyPlugins(server, c) == [] || Unreadable(server.codec, whole) then response == c.response && sent == whole
    else exists o, final ::
      && Reads(server.codec, c.response.body, whole, o)
      && Leads(BodyPlugins(server, c), Point(c.response.(body := o), c.cycle), final)
      && Sends(server.codec, final.message, whole, sent)
      && response == if final.message.bodyMutated then Measured(final.message, sent) else final.message
  }

  /** A failing plugin, or a body that cannot be printed. */
  ghost predicate ResponseFails(server: Server, c: Context, whole: Bytes, e: Error) {
    exists o, to ::
      && Reads(server.codec, c.response.body, whole, o)
      && var start := Point(c.response.(body := o), c.cycle);
         || Breaks(BodyPlugins(server, c), start, to, e)
         || (&& e.code == Unknown && Leads(BodyPlugins(server, c), start, to)
             && to.message.bodyMutated && server.codec.encode(to.message.body).None?)
  }

  lemma HandlerReturns(server: Server, c: Context, bytes: Bytes)
    ensures var h := HandleResponseBody(server, c, bytes);
            && (h.error.None? ==>
                  && Returns(server, c, bytes, h.ctx.response, Payload(false, h.replies))
                  && AnswersWith(h.replies, MutationOf(h.ctx.response)))
            && (h.error.Some? ==> ResponseFails(server, c, bytes, h.error.value))
  {
    var h := HandleResponseBody(server, c, bytes);
    var parsed := ParseResponse(server.codec, c.response.body, bytes);
    if BodyPlugins(server, c) == [] || parsed.None? {
      assert BodyPlugins(server, c) == [] ==> c.profile.responsePlugins == [] && server.postProcessors == [];
      PayloadOfAnswer(false, h.replies[0], bytes);
    } else {
      var m := c.response.(body := parsed.value);
      HandlerRuns(server, c, bytes, parsed.value, RunProcessors(BodyPlugins(server, c), m, c.cycle));
    }
  }

  lemma HandlerRuns(server: Server, c: Context, bytes: Bytes, o: Object, r: PipelineResult)
    requires BodyPlugins(server, c) != [] && ParseResponse(server.codec, c.response.body, bytes) == Some(o)
    requires r == RunProcessors(BodyPlugins(server, c), c.response.(body := o), c.cycle)
    ensures var h := HandleResponseBody(server, c, bytes);
            && (h.error.None? ==>
                  && Returns(server, c, bytes, h.ctx.response, Payload(false, h.replies))
                  && AnswersWith(h.replies, MutationOf(h.ctx.response)))
            && (h.error.Some? ==> ResponseFails(server, c, bytes, h.error.value))
  {
    var start, final := Point(c.response.(body := o), c.cycle), Point(r.message, r.cycle);
    assert Reads(server.codec, c.response.body, bytes, o);
    if r.error.Some? {
      RunFailsByCall(BodyPlugins(server, c), start, final, r.error.value);
    } else {
      RunIsChain(BodyPlugins(server, c), start, final);
      RanAndSent(server, c, bytes, o, r);
    }
  }

  lemma RanAndSent(server: Server, c: Context, bytes: Bytes, o: Object, r: PipelineResult)
    requires BodyPlugins(server, c) != [] && ParseResponse(server.codec, c.response.body, bytes) == Some(o)
    requires r == RunProcessors(BodyPlugins(server, c), c.response.(body := o), c.cycle) && r.error.None?
    ensures var h, out := HandleResponseBody(server, c, bytes), OutgoingBody(server.codec, r.message, bytes);
            if out.None? then h.error.Some? && h.error.value.code == Unknown else
              && h.error.None? && Payload(false, h.replies) == out.value
              && h.ctx.response == (if r.message.bodyMutated then Measured(r.message, out.value) else r.message)
              && AnswersWith(h.replies, MutationOf(h.ctx.response))
  {
    var h, out := HandleResponseBody(server, c, bytes), OutgoingBody(server.codec, r.message, bytes);
    if out.Some? {
      PayloadOfAnswer(false, h.replies[0], out.value);
      assert h.replies == [h.replies[0]] + ResponseBodyReplies(out.value);
    }
  }

  lemma {:induction false} ResponseIsCollected(server: Server, p: Phase, t: Trace, msgs: seq<In>)
    requires AdvanceAll(p, msgs).Some? && Open(AdvanceAll(p, msgs).value) && Open(p)
    requires t.state.status == Running ==> !t.state.responseBodyComplete
    ensures var t' := DeliverAll(server, t, msgs);
            t'.state.status == Running ==>
              t'.state.responseBody == t.state.responseBody + DeliveredResponse(msgs) && !t'.state.responseBodyComplete
    decreases |msgs|
  {
    if t.state.status != Running {
      StoppedStaysPut(server, t, msgs);
    } else if msgs == [] {
      assert t.state.responseBody + [] == t.state.responseBody;
    } else {
      var q, t1 := Advance(p, msgs[0]).value, Deliver(server, t, msgs[0]);
      StaysClosed(q, msgs[1..]);
      CollectedStep(server, t, msgs[0]);
      ResponseIsCollected(server, q, t1, msgs[1..]);
      if msgs[0].ResponseBody? {
        var bytes, rest := msgs[0].bytes, DeliveredResponse(msgs[1..]);
        assert t.state.responseBody + (bytes + rest) == t.state.responseBody + bytes + rest;
      }
    }
  }

  /** The response has not ended. */
  predicate Open(p: Phase) { !p.ResponseClosed? }

  lemma {:induction false} StaysClosed(p: Phase, msgs: seq<In>)
    requires AdvanceAll(p, msgs).Some? && Open(AdvanceAll(p, msgs).value)
    ensures Open(p)
    decreases |msgs|
  {
    if msgs != [] {
      StaysClosed(Advance(p, msgs[0]).value, msgs[1..]);
    }
  }

  lemma CollectedStep(server: Server, t: Trace, msg: In)
    requires t.state.status == Running && !t.state.responseBodyComplete && (msg.ResponseBody? ==> !msg.eos)
    ensures var s := Deliver(server, t, msg).state;
            && !s.responseBodyComplete
            && s.responseBody == if msg.ResponseBody? then t.state.responseBody + msg.bytes else t.state.responseBody
  {
  }

  /** Nothing later adds to the response, and nothing fails any more. */
  lemma {:induction false} ResponseStaysReturned(
    server: Server, p: Phase, t: Trace, msgs: seq<In>, sent: Bytes, delta: HeaderMutation)
    requires Tracks(p, t) && t.state.status == Running && HasResponse(p) && AdvanceAll(p, msgs).Some?
    requires Carries(t.replies, sent, delta)
    ensures var t' := DeliverAll(server, t, msgs);
            t'.state.status == Running && t'.events == t.events && Carries(t'.replies, sent, delta)
    decreases |msgs|
  {
    if msgs != [] {
      var t1, h := Deliver(server, t, msgs[0]), Dispatch(server, t.state, msgs[0]).handled;
      QuietAtTheEnd(server, t.state, msgs[0]);
      ForeignReplies(t.replies, h.replies, sent, delta);
      DeliverTracks(server, p, t, msgs[0]);
      ResponseStaysReturned(server, Advance(p, msgs[0]).value, t1, msgs[1..], sent, delta);
    }
  }

  lemma QuietAtTheEnd(server: Server, s: State, msg: In)
    requires s.responseBodyComplete && (msg.RequestBody? ==> s.requestBodyComplete)
    requires !msg.RequestHeaders? && !msg.ResponseHeaders? && !msg.Unrecognized?
    ensures var h := Dispatch(server, s, msg).handled; h.error.None? && h.events == [] && NoResponseReply(h.replies)
  {
  }

  /** What the data layer is told of a response: what has become of it - with the body read now, if nothing has been
      read of it and it can be. */
  ghost predicate Told(codec: Codec, response: Message, whole: Bytes, told: Message) {
    if response.body == map[] && whole != [] && !Unreadable(codec, whole)
    then exists o :: Reads(codec, map[], whole, o) && told == response.(body := o)
    else told == response
  }

  lemma CompletionTells(codec: Codec, response: Message, whole: Bytes)
    ensures Told(codec, response, whole, FinalResponse(codec, response, whole))
  {
    if response.body == map[] && ParseResponse(codec, map[], whole).Some? {
      assert Reads(codec, map[], whole, ParseResponse(codec, map[], whole).value);
    }
  }

  /** A response as it ends: what the client has been sent, and what the data layer is told. */
  ghost predicate Ends(server: Server, c: Context, whole: Bytes, before: Trace, t: Trace) {
    exists response, sent, told ::
      && Returns(server, c, whole, response, sent)
      && Carries(t.replies, sent, MutationOf(response))
      && Told(server.codec, response, whole, told)
      && t.events == before.events + [ResponseEvent(c.request, told)]
  }

  lemma BufferedEndIsDelivered(server: Server, t: Trace, last: Bytes)
    requires t.state.status == Running && !t.state.responseBodyComplete && t.state.ctx.profile.needsResponseBuffering
    ensures var t', whole := Deliver(server, t, ResponseBody(last, true)), t.state.responseBody + last;
            var h := HandleResponseBody(server, t.state.ctx, whole);
            if h.error.Some? then EndedBy(t, h.error.value, t') else
              var told := FinalResponse(server.codec, h.ctx.response, whole);
              && t'.state.status == Running && t'.replies == t.replies + h.replies
              && t'.events == t.events + [ResponseEvent(t.state.ctx.request, told)]
  {
    BufferedEvents(server, t.state.ctx, t.state.responseBody + last);
  }

  /** The end of a buffered response. */
  lemma BufferedResponseEnds(server: Server, p: Phase, t: Trace, last: Bytes, t': Trace)
    requires Tracks(p, t) && t.state.status == Running && p.ResponseOpen?
    requires t.state.ctx.profile.needsResponseBuffering && t' == Deliver(server, t, ResponseBody(last, true))
    ensures var whole := t.state.responseBody + last;
            || (t'.state.status == Running && Ends(server, t.state.ctx, whole, t, t'))
            || (exists e :: ResponseFails(server, t.state.ctx, whole, e) && EndedBy(t, e, t'))
  {
    var whole := t.state.responseBody + last;
    var h := HandleResponseBody(server, t.state.ctx, whole);
    BufferedEndIsDelivered(server, t, last);
    HandlerReturns(server, t.state.ctx, whole);
    if h.error.None? {
      var sent, delta := Payload(false, h.replies), MutationOf(h.ctx.response);
      NothingSentYet(p, t, delta);
      CarriesConcat(t.replies, h.replies, [], sent, delta);
      CompletionTells(server.codec, h.ctx.response, whole);
      assert [] + sent == sent;
    }
  }

  /** From the upstream's response to the client's: over every well-ordered stream whose profile buffers, under any
      plugins, the whole body is parsed and handed through every response plugin and post-processor in order, and
      what they made of it is what the client gets, under the final header delta - the upstream's bytes if no plugin
      changed the body - and what the data layer is told, whatever follows; or the first failure ends the stream. */
  lemma BufferedResponseRunsEveryPlugin(
    server: Server, cycle: CycleState, front: seq<In>, body: bool, last: Bytes, more: seq<In>)
    requires AdvanceAll(Opening, front) == Some(ResponseOpen(body)) && AdvanceAll(ResponseClosed(body, true), more).Some?
    requires var t0 := DeliverAll(server, Start(cycle), front);
             t0.state.status == Running && t0.state.ctx.profile.needsResponseBuffering
    ensures var t0 := DeliverAll(server, Start(cycle), front);
            var t := DeliverAll(server, Start(cycle), front + [ResponseBody(last, true)] + more);
            var whole := DeliveredResponse(front) + last;
            || (t.state.status == Running && Ends(server, t0.state.ctx, whole, t0, t))
            || (exists e :: ResponseFails(server, t0.state.ctx, whole, e) && EndedBy(t0, e, t))
  {
    var t0 := DeliverAll(server, Start(cycle), front);
    ResponseIsCollected(server, Opening, Start(cycle), front);
    assert [] + DeliveredResponse(front) == DeliveredResponse(front);
    DeliverAllTracks(server, Opening, Start(cycle), front);
    DeliveredAround(server, Start(cycle), front, ResponseBody(last, true), more);
    BufferedResponseRunsOn(server, ResponseOpen(body), t0, last, more);
  }

  lemma BufferedResponseRunsOn(server: Server, p: Phase, t0: Trace, last: Bytes, more: seq<In>)
    requires Tracks(p, t0) && t0.state.status == Running && p.ResponseOpen?
    requires t0.state.ctx.profile.needsResponseBuffering && AdvanceAll(ResponseClosed(p.body, true), more).Some?
    ensures var t := DeliverAll(server, Deliver(server, t0, ResponseBody(last, true)), more);
            var whole := t0.state.responseBody + last;
            || (t.state.status == Running && Ends(server, t0.state.ctx, whole, t0, t))
            || (exists e :: ResponseFails(server, t0.state.ctx, whole, e) && EndedBy(t0, e, t))
  {
    var t1 := Deliver(server, t0, ResponseBody(last, true));
    BufferedResponseEnds(server, p, t0, last, t1);
    if t1.state.status != Running {
      StoppedStaysPut(server, t1, more);
    } else {
      var response, sent, told :|
        && Returns(server, t0.state.ctx, t0.state.responseBody + last, response, sent)
        && Carries(t1.replies, sent, MutationOf(response))
        && Told(server.codec, response, t0.state.responseBody + last, told)
        && t1.events == t0.events + [ResponseEvent(t0.state.ctx.request, told)];
      DeliverTracks(server, p, t0, ResponseBody(last, true));
      ResponseStaysReturned(server, ResponseClosed(p.body, true), t1, more, sent, MutationOf(response));
    }
  }

  /** What is sent once a plugin has changed the body is the final body as printed, and the headers the client gets
      announce its length. */
  lemma ChangedBodyIsAnnounced(
    server: Server, c: Context, whole: Bytes, response: Message, sent: Bytes, upstream: Headers)
    requires Returns(server, c, whole, response, sent) && Faithful(upstream, c.response)
    ensures Mutate(upstream, response.mutated, response.removed) == response.headers
    ensures sent == whole ||
            (&& response.bodyMutated && server.codec.encode(response.body) == Some(sent)
             && CONTENT_LENGTH in response.headers && Text.Decimal(response.headers[CONTENT_LENGTH]) == |sent|)
  {
    Text.DecimalOfItoa(|sent|);
    if BodyPlugins(server, c) != [] && !Unreadable(server.codec, whole) {
      var o, final :|
        && Reads(server.codec, c.response.body, whole, o)
        && Leads(BodyPlugins(server, c), Point(c.response.(body := o), c.cycle), final)
        && Sends(server.codec, final.message, whole, sent)
        && response == if final.message.bodyMutated then Measured(final.message, sent) else final.message;
      RunIsChain(BodyPlugins(server, c), Point(c.response.(body := o), c.cycle), final);
      PluginsKeepDeltaFaithful(upstream, BodyPlugins(server, c), c.response.(body := o), c.cycle);
      ApplyFaithful(upstream, final.message, SetHeader(CONTENT_LENGTH, Text.Itoa(|sent|)));
    }
  }

  // ---------- streamed responses ----------

  /** Over every stream whose profile streams, under any chunk processors: a chunk is handed through every processor
      in order, each on the chunk its predecessors left, and one body reply carries what is left of it, after the
      headers reply if that is still due; the last one also tells the data layer; or the first failure ends the
      stream. */
  lemma ChunkRunsEveryProcessor(server: Server, t: Trace, bytes: Bytes, eos: bool)
    requires t.state.status == Running && !t.state.responseBodyComplete
    requires !t.state.ctx.profile.needsResponseBuffering
    ensures var t', c := Deliver(server, t, ResponseBody(bytes, eos)), t.state.ctx;
            var from := ChunkPoint(c.response, bytes, c.cycle);
            || (t'.state.status == Running && exists to ::
                  && ChunkLeads(c.profile.chunkProcessors, eos, from, to)
                  && t'.state.ctx.cycle == to.cycle
                  && t'.replies == t.replies + SentFor(c, to, eos)
                  && (if eos then TellsAtEnd(server.codec, t, t.state.responseBody + bytes, to, t')
                      else t'.state.ctx.response == to.message && t'.events == t.events))
            || (exists e :: ChunkBreaks(c.profile.chunkProcessors, eos, from, e) && EndedBy(t, e, t'))
  {
    var t', c := Deliver(server, t, ResponseBody(bytes, eos)), t.state.ctx;
    var from, h := ChunkPoint(c.response, bytes, c.cycle), HandleResponseChunk(c, bytes, eos);
    ChunkIsChain(c, bytes, eos);
    StreamedEvents(c, bytes, eos);
    if h.error.Some? {
      assert EndedBy(t, h.error.value, t');
    } else if eos {
      CompletionTells(server.codec, h.ctx.response, t.state.responseBody + bytes);
    }
  }

  ghost predicate TellsAtEnd(codec: Codec, t: Trace, whole: Bytes, to: ChunkPoint, t': Trace) {
    exists told :: Told(codec, to.message, whole, told) && t'.events == t.events + [ResponseEvent(t.state.ctx.request, told)]
  }

  /** The replies to a chunk the processors have left like this. */
  function SentFor(c: Context, to: ChunkPoint, eos: bool): seq<Reply> {
    (if c.responseHeadersSent then [] else [ResponseHeadersReply(OptionalMutation(to.message), false)]) +
    [ResponseBodyReply(Chunk(to.chunk, eos))]
  }

  lemma ChunkIsChain(c: Context, bytes: Bytes, eos: bool)
    ensures var h, from := HandleResponseChunk(c, bytes, eos), ChunkPoint(c.response, bytes, c.cycle);
            && (h.error.None? ==> exists to ::
                  && ChunkLeads(c.profile.chunkProcessors, eos, from, to)
                  && h.ctx.cycle == to.cycle && h.ctx.response == to.message && h.replies == SentFor(c, to, eos))
            && (h.error.Some? ==> ChunkBreaks(c.profile.chunkProcessors, eos, from, h.error.value))
  {
    var h, from := HandleResponseChunk(c, bytes, eos), ChunkPoint(c.response, bytes, c.cycle);
    var r := RunChunkProcessors(c.profile.chunkProcessors, c.response, bytes, false, c.cycle, eos);
    ChunkRunIsChain(c.profile.chunkProcessors, eos, from, false);
    if r.error.None? {
      var to := ChunkPoint(r.message, r.chunk, r.cycle);
      assert h.replies == SentFor(c, to, eos);
    }
  }
}
