/** What goes upstream: the bytes, the headers and the announced length of every request. */
module Requests {
  import opened Common
  import opened Json
  import opened Messages
  import opened Framework
  import opened Chunking
  import opened Handlers
  import opened Protocol
  import opened Fragmentation
  import Text

  /** The body bytes sent in one direction. */
  function Payload(request: bool, replies: seq<Reply>): Bytes {
    if replies == [] then [] else
      Payload(request, replies[..|replies| - 1]) +
      (if IsBody(request, replies[|replies| - 1]) then replies[|replies| - 1].chunk.body else [])
  }

  lemma {:induction false} PayloadOfConcat(request: bool, a: seq<Reply>, b: seq<Reply>)
    ensures Payload(request, a + b) == Payload(request, a) + Payload(request, b)
    decreases |b|
  {
    if b == [] {
      assert a + b == a;
    } else {
      var front := b[..|b| - 1];
      assert (a + b)[..|a + b| - 1] == a + front;
      PayloadOfConcat(request, a, front);
    }
  }

  lemma {:induction false} PayloadOfChunks(request: bool, body: seq<Reply>, chunks: seq<Chunk>)
    requires |body| == |chunks|
    requires forall i :: 0 <= i < |body| ==> IsBody(request, body[i]) && body[i].chunk == chunks[i]
    ensures Payload(request, body) == Joined(chunks)
    decreases |body|
  {
    if body != [] {
      PayloadOfChunks(request, body[1..], chunks[1..]);
      assert body == [body[0]] + body[1..];
      PayloadOfConcat(request, [body[0]], body[1..]);
      assert Payload(request, [body[0]]) == body[0].chunk.body;
    }
  }

  lemma PayloadOfAnswer(request: bool, headers: Reply, out: Bytes)
    requires IsHeaders(request, headers)
    ensures Payload(request, [headers] + (if request then RequestBodyReplies(out) else ResponseBodyReplies(out))) == out
  {
    var body := if request then RequestBodyReplies(out) else ResponseBodyReplies(out);
    PayloadOfConcat(request, [headers], body);
    PayloadOfChunks(request, body, Split(out, true));
    SplitIsExact(out, true);
  }

  /** Nothing in these replies belongs to the request direction. */
  ghost predicate NoRequestReply(replies: seq<Reply>) {
    forall i :: 0 <= i < |replies| ==> !IsHeaders(true, replies[i]) && !IsBody(true, replies[i])
  }

  lemma {:induction false} NoPayload(replies: seq<Reply>)
    requires NoRequestReply(replies)
    ensures Payload(true, replies) == []
  {
    if replies != [] {
      NoPayload(replies[..|replies| - 1]);
    }
  }

  lemma BufferedLeavesRequest(server: Server, c: Context, bytes: Bytes)
    ensures var h := HandleResponseBody(server, c, bytes);
            h.ctx.request == c.request && NoRequestReply(h.replies)
  {
  }

  lemma StreamedLeavesRequest(c: Context, bytes: Bytes, eos: bool)
    ensures var h := HandleResponseChunk(c, bytes, eos);
            h.ctx.request == c.request && NoRequestReply(h.replies)
  {
  }

  /** Once a request has been handled no message touches it or answers it again. */
  lemma RequestIsSettled(server: Server, s: State, msg: In)
    requires !msg.RequestHeaders? && (msg.RequestBody? ==> s.requestBodyComplete)
    ensures var h := Dispatch(server, s, msg).handled;
            h.ctx.request == s.ctx.request && NoRequestReply(h.replies)
  {
    if msg.ResponseBody? {
      BufferedLeavesRequest(server, s.ctx, s.responseBody + msg.bytes);
      StreamedLeavesRequest(s.ctx, msg.bytes, msg.eos);
    }
  }

  /** The headers Envoy sent, under lower-case names. */
  function Ingress(msgs: seq<In>): Headers {
    if msgs != [] && msgs[0].RequestHeaders? then Ingest(map[], Lowered(msgs[0].headers)) else map[]
  }

  predicate LowerCase(s: string) { forall i :: 0 <= i < |s| ==> !('A' <= s[i] <= 'Z') }

  /** Every key taken in from Envoy is lower case, so none of them is "Content-Length". */
  lemma {:induction false} IngressIsLowerCase(h: Headers, incoming: seq<(string, string)>)
    requires forall k :: k in h ==> LowerCase(k)
    ensures forall k :: k in Ingest(h, Lowered(incoming)) ==> LowerCase(k)
    ensures CONTENT_LENGTH !in Ingest(h, Lowered(incoming))
    decreases |incoming|
  {
    if incoming == [] {
      assert !LowerCase(CONTENT_LENGTH) by { assert CONTENT_LENGTH[0] == 'C'; }
    } else {
      var l := Lowered(incoming);
      assert l[1..] == Lowered(incoming[1..]);
      IngressIsLowerCase(h[l[0].0 := l[0].1], incoming[1..]);
    }
  }

  lemma {:induction false} TraceKeepsBody(m: Message, trace: seq<(string, string)>)
    ensures var r := ApplyAll(m, TraceOps(trace)); r.body == m.body && r.bodyMutated == m.bodyMutated
    decreases |trace|
  {
    if trace != [] {
      var ops := TraceOps(trace);
      assert ops[1..] == TraceOps(trace[1..]);
      TraceKeepsBody(Apply(m, ops[0]), trace[1..]);
    }
  }

  /** The headers reply turns the ingress headers into the request's, announces the length of what follows and has the
      route chosen anew. */
  ghost predicate AnnouncesLength(ingress: Headers, current: Headers, reply: Reply, length: nat) {
    && reply.RequestHeadersReply? && reply.clearRouteCache
    && reply.mutation.Some?
    && var m := reply.mutation.value;
    && m.setHeaders.Keys !! m.removeHeaders
    && Mutate(ingress, m.setHeaders, m.removeHeaders) == current
    && CONTENT_LENGTH in m.setHeaders
    && Text.Decimal(m.setHeaders[CONTENT_LENGTH]) == length
  }

  /** What was sent upstream for a request whose body Envoy delivered as `received`. */
  ghost predicate Answered(codec: Codec, ingress: Headers, received: Bytes, request: Message, replies: seq<Reply>) {
    var sent := Payload(true, replies);
    && (if request.bodyMutated then codec.encode(request.body) == Some(sent) else sent == received)
    && forall i :: 0 <= i < |replies| && IsHeaders(true, replies[i]) ==>
         AnnouncesLength(ingress, request.headers, replies[i], |sent|)
  }

  lemma PipelineKeepsDeltaFaithful(server: Server, ingress: Headers, c: Context)
    requires Faithful(ingress, c.request)
    ensures Faithful(ingress, RunRequestPipeline(server, c).ctx.request)
  {
    var pre := RunProcessors(server.preProcessors, c.request, c.cycle);
    PluginsKeepDeltaFaithful(ingress, server.preProcessors, c.request, c.cycle);
    if pre.error.None? && server.picker.Some? {
      var picked := server.picker.value(pre.message, pre.cycle, server.profiles);
      if picked.profile.Some? {
        PluginsKeepDeltaFaithful(ingress, picked.profile.value.requestPlugins, pre.message, picked.cycle);
      }
    }
  }

  /** A faithful message with its length set announces that length. */
  lemma LengthIsAnnounced(ingress: Headers, m: Message, length: nat, reply: Reply)
    requires Faithful(ingress, m) && CONTENT_LENGTH !in ingress
    requires reply == RequestHeadersReply(Some(MutationOf(Apply(m, SetHeader(CONTENT_LENGTH, Text.Itoa(length))))), true)
    ensures AnnouncesLength(ingress, Apply(m, SetHeader(CONTENT_LENGTH, Text.Itoa(length))).headers, reply, length)
  {
    ApplyFaithful(ingress, m, SetHeader(CONTENT_LENGTH, Text.Itoa(length)));
    Text.DecimalOfItoa(length);
    var n := Apply(m, SetHeader(CONTENT_LENGTH, Text.Itoa(length)));
    assert n.headers[CONTENT_LENGTH] == Text.Itoa(length);
    assert CONTENT_LENGTH in Mutate(ingress, n.mutated, n.removed);
  }

  /** The request body handler answers exactly. */
  lemma HandlerAnswers(server: Server, ingress: Headers, c: Context, bytes: Bytes)
    requires Faithful(ingress, c.request) && CONTENT_LENGTH !in ingress
    requires HandleRequestBody(server, c, bytes).error.None?
    ensures var h := HandleRequestBody(server, c, bytes);
            Answered(server.codec, ingress, bytes, h.ctx.request, h.replies)
  {
    var h := HandleRequestBody(server, c, bytes);
    var c1 := c.(request := c.request.(body := Unmarshal(server.codec, c.request.body, bytes).value));
    PipelineKeepsDeltaFaithful(server, ingress, c1);
    var run := RunRequestPipeline(server, c1);
    var out := OutgoingBody(server.codec, run.ctx.request, bytes).value;
    LengthIsAnnounced(ingress, run.ctx.request, |out|, h.replies[0]);
    PayloadOfAnswer(true, h.replies[0], out);
    assert forall i :: 0 < i < |h.replies| ==> IsBody(true, h.replies[i]);
  }

  /** How the request side of a running stream stands in each phase. */
  ghost predicate RequestSide(codec: Codec, p: Phase, ingress: Headers, received: Bytes, t: Trace) {
    var s := t.state;
    match p
    case Opening => s.ctx.request == NewMessage && s.requestBody == received == [] && NoRequestReply(t.replies)
    case RequestOpen =>
      && Faithful(ingress, s.ctx.request) && CONTENT_LENGTH !in ingress
      && s.requestBody == received && !s.requestBodyComplete && NoRequestReply(t.replies)
    case _ =>
      && (p.body ==> s.requestBodyComplete && Answered(codec, ingress, received, s.ctx.request, t.replies))
  }

  lemma AppendForeign(replies: seq<Reply>, more: seq<Reply>)
    requires NoRequestReply(more)
    ensures Payload(true, replies + more) == Payload(true, replies)
    ensures Payload(true, more + replies) == Payload(true, replies)
  {
    PayloadOfConcat(true, replies, more);
    PayloadOfConcat(true, more, replies);
    NoPayload(more);
  }

  lemma SettledStaysAnswered(server: Server, ingress: Headers, received: Bytes, t: Trace, msg: In)
    requires t.state.status == Running
    requires !msg.RequestHeaders? && (msg.RequestBody? ==> t.state.requestBodyComplete)
    requires Answered(server.codec, ingress, received, t.state.ctx.request, t.replies)
    ensures var t' := Deliver(server, t, msg);
            Answered(server.codec, ingress, received, t'.state.ctx.request, t'.replies)
  {
    RequestIsSettled(server, t.state, msg);
    var more := RepliesAfter(Dispatch(server, t.state, msg).handled);
    AppendForeign(t.replies, more);
    var t' := Deliver(server, t, msg);
    assert forall i :: 0 <= i < |t'.replies| && IsHeaders(true, t'.replies[i]) ==>
             i < |t.replies| && t'.replies[i] == t.replies[i];
  }

  lemma AnsweredAfter(
    codec: Codec, ingress: Headers, received: Bytes, request: Message, before: seq<Reply>, answer: seq<Reply>)
    requires NoRequestReply(before) && Answered(codec, ingress, received, request, answer)
    ensures Answered(codec, ingress, received, request, before + answer)
  {
    AppendForeign(answer, before);
    var all := before + answer;
    assert forall i :: 0 <= i < |all| && IsHeaders(true, all[i]) ==>
             |before| <= i && all[i] == answer[i - |before|];
  }

  lemma FirstAnswer(server: Server, ingress: Headers, t: Trace, bytes: Bytes)
    requires t.state.status == Running && !t.state.requestBodyComplete
    requires Faithful(ingress, t.state.ctx.request) && CONTENT_LENGTH !in ingress && NoRequestReply(t.replies)
    ensures var t' := Deliver(server, t, RequestBody(bytes, true));
            t'.state.status == Running ==>
              Answered(server.codec, ingress, t.state.requestBody + bytes, t'.state.ctx.request, t'.replies)
  {
    var whole := t.state.requestBody + bytes;
    var h := HandleRequestBody(server, t.state.ctx, whole);
    if h.error.None? {
      HandlerAnswers(server, ingress, t.state.ctx, whole);
      AnsweredAfter(server.codec, ingress, whole, h.ctx.request, t.replies, h.replies);
    }
  }

  lemma OpeningStep(server: Server, t: Trace, msg: In)
    requires msg.RequestHeaders? && t.state.status == Running && !t.state.requestBodyComplete
    requires RequestSide(server.codec, Opening, map[], [], t)
    ensures var t' := Deliver(server, t, msg);
            var p' := Advance(Opening, msg).value;
            RequestSide(server.codec, p', Ingest(map[], Lowered(msg.headers)), [], t')
  {
    var ingress := Ingest(map[], Lowered(msg.headers));
    var ingested := NewMessage.(headers := ingress);
    IngressIsLowerCase(map[], msg.headers);
    assert Mutate(ingress, map[], {}) == ingress;
    DeltaIsFaithful(ingress, ingested, TraceOps(msg.trace));
    if !msg.eos {
      assert t.replies + [] == t.replies;
    }
  }

  function NextIngress(p: Phase, ingress: Headers, msg: In): Headers {
    if p.Opening? && msg.RequestHeaders? then Ingest(map[], Lowered(msg.headers)) else ingress
  }

  function NextReceived(p: Phase, received: Bytes, msg: In): Bytes {
    if p.RequestOpen? && msg.RequestBody? then received + msg.bytes else received
  }

  lemma RequestSideStep(server: Server, p: Phase, ingress: Headers, received: Bytes, t: Trace, msg: In)
    requires t.state.status == Running && Tracks(p, t) && Advance(p, msg).Some?
    requires RequestSide(server.codec, p, ingress, received, t)
    ensures var t' := Deliver(server, t, msg);
            t'.state.status == Running ==>
              RequestSide(
                server.codec, Advance(p, msg).value, NextIngress(p, ingress, msg), NextReceived(p, received, msg), t')
  {
    match p
    case Opening => OpeningStep(server, t, msg);
    case RequestOpen =>
      if msg.eos {
        FirstAnswer(server, ingress, t, msg.bytes);
      } else {
        SilentDelivery(server, t, msg);
      }
    case _ =>
      if p.body {
        SettledStaysAnswered(server, ingress, received, t, msg);
      }
  }

  /** The ingress headers and the delivered body once `msgs` have arrived. */
  function FinalIngress(p: Phase, ingress: Headers, msgs: seq<In>): Headers
    decreases |msgs|
  {
    if msgs == [] || Advance(p, msgs[0]).None? then ingress
    else FinalIngress(Advance(p, msgs[0]).value, NextIngress(p, ingress, msgs[0]), msgs[1..])
  }

  function FinalReceived(p: Phase, received: Bytes, msgs: seq<In>): Bytes
    decreases |msgs|
  {
    if msgs == [] || Advance(p, msgs[0]).None? then received
    else FinalReceived(Advance(p, msgs[0]).value, NextReceived(p, received, msgs[0]), msgs[1..])
  }

  lemma {:induction false} RequestSideRun(
    server: Server, p: Phase, ingress: Headers, received: Bytes, t: Trace, msgs: seq<In>)
    requires Tracks(p, t) && AdvanceAll(p, msgs).Some?
    requires t.state.status == Running ==> RequestSide(server.codec, p, ingress, received, t)
    ensures var t' := DeliverAll(server, t, msgs);
            t'.state.status == Running ==>
              RequestSide(server.codec, AdvanceAll(p, msgs).value,
                          FinalIngress(p, ingress, msgs), FinalReceived(p, received, msgs), t')
    decreases |msgs|
  {
    if t.state.status != Running {
      StoppedStaysPut(server, t, msgs);
    } else if msgs != [] {
      RequestSideStep(server, p, ingress, received, t, msgs[0]);
      DeliverTracks(server, p, t, msgs[0]);
      RequestSideRun(
        server, Advance(p, msgs[0]).value, NextIngress(p, ingress, msgs[0]), NextReceived(p, received, msgs[0]),
        Deliver(server, t, msgs[0]), msgs[1..]);
    }
  }

  lemma {:induction false} IngressAndBodyAreSettled(p: Phase, ingress: Headers, received: Bytes, msgs: seq<In>)
    requires !p.Opening? && AdvanceAll(p, msgs).Some?
    ensures FinalIngress(p, ingress, msgs) == ingress
    ensures !p.RequestOpen? ==> FinalReceived(p, received, msgs) == received
    ensures p.RequestOpen? ==> FinalReceived(p, received, msgs) == received + DeliveredBody(msgs)
    decreases |msgs|
  {
    if msgs != [] {
      var received' := NextReceived(p, received, msgs[0]);
      IngressAndBodyAreSettled(Advance(p, msgs[0]).value, ingress, received', msgs[1..]);
      if p.RequestOpen? && !msgs[0].eos {
        assert received + (msgs[0].bytes + DeliveredBody(msgs[1..])) == received' + DeliveredBody(msgs[1..]);
      }
    }
  }

  lemma FinalsOfWellOrdered(msgs: seq<In>)
    requires WellOrdered(msgs)
    ensures FinalIngress(Opening, map[], msgs) == Ingress(msgs)
    ensures var p := AdvanceAll(Opening, msgs).value;
            !p.Opening? && !p.RequestOpen? && p.body ==> FinalReceived(Opening, [], msgs) == DeliveredBody(msgs)
  {
    if msgs != [] {
      var q := Advance(Opening, msgs[0]).value;
      IngressAndBodyAreSettled(q, Ingress(msgs), [], msgs[1..]);
      if q.RequestOpen? {
        assert [] + DeliveredBody(msgs[1..]) == DeliveredBody(msgs);
      } else {
        BodyFlagStays(q, msgs[1..]);
      }
    }
  }

  lemma {:induction false} BodyFlagStays(p: Phase, msgs: seq<In>)
    requires !p.Opening? && !p.RequestOpen? && AdvanceAll(p, msgs).Some?
    ensures var q := AdvanceAll(p, msgs).value; !q.Opening? && !q.RequestOpen? && q.body == p.body
    decreases |msgs|
  {
    if msgs != [] {
      BodyFlagStays(Advance(p, msgs[0]).value, msgs[1..]);
    }
  }

  /** Every running well-ordered stream whose request body has ended was sent upstream exactly: the bytes
      Envoy delivered, or the printed final body if a plugin changed it; under one headers reply whose delta
      turns the ingress headers into the request's and whose Content-Length counts those bytes. */
  lemma RequestIsForwardedExactly(server: Server, cycle: CycleState, msgs: seq<In>)
    requires WellOrdered(msgs)
    ensures var t := DeliverAll(server, Start(cycle), msgs);
            var p := AdvanceAll(Opening, msgs).value;
            t.state.status == Running && !p.Opening? && !p.RequestOpen? && p.body ==>
              && Answered(server.codec, Ingress(msgs), DeliveredBody(msgs), t.state.ctx.request, t.replies)
              && exists i :: 0 <= i < |t.replies| && IsHeaders(true, t.replies[i])
  {
    RequestSideRun(server, Opening, map[], [], Start(cycle), msgs);
    FinalsOfWellOrdered(msgs);
    RepliesAreLegal(server, cycle, msgs);
  }

  // ---------- a body that trailers end is never flushed ----------

  ghost predicate NothingForwarded(t: Trace) {
    && (forall i :: 0 <= i < |t.replies| ==> !IsBody(true, t.replies[i]))
    && (forall i :: 0 <= i < |t.events| ==> !t.events[i].RequestEvent?)
  }

  lemma OnlyTheEndForwards(server: Server, s: State, msg: In)
    requires msg.RequestBody? ==> !msg.eos
    ensures var h := Dispatch(server, s, msg).handled;
            && (forall i :: 0 <= i < |h.replies| ==> !IsBody(true, h.replies[i]))
            && (forall i :: 0 <= i < |h.events| ==> !h.events[i].RequestEvent?)
  {
    if !msg.RequestHeaders? && !msg.RequestBody? {
      RequestIsSettled(server, s, msg);
    }
  }

  lemma UnfinishedStep(server: Server, t: Trace, msg: In)
    requires !t.state.requestBodyComplete && NothingForwarded(t) && (msg.RequestBody? ==> !msg.eos)
    ensures !Deliver(server, t, msg).state.requestBodyComplete && NothingForwarded(Deliver(server, t, msg))
  {
    OnlyTheEndForwards(server, t.state, msg);
  }

  /** Without an end of stream on some request chunk - whatever else arrives, trailers included - not one
      byte is forwarded and the data layer never hears of the request. */
  lemma {:induction false} UnfinishedBodyIsNeverForwarded(server: Server, t: Trace, msgs: seq<In>)
    requires !t.state.requestBodyComplete && NothingForwarded(t) && NoRequestEnd(msgs)
    ensures NothingForwarded(DeliverAll(server, t, msgs))
    decreases |msgs|
  {
    if msgs != [] {
      UnfinishedStep(server, t, msgs[0]);
      UnfinishedBodyIsNeverForwarded(server, Deliver(server, t, msgs[0]), msgs[1..]);
    }
  }

  /** A request body that is handled without an error ends with its event. */
  lemma EndNotifies(server: Server, t: Trace, bytes: Bytes)
    requires t.state.status == Running && !t.state.requestBodyComplete
    ensures var t' := Deliver(server, t, RequestBody(bytes, true));
            t'.state.status == Running ==> |t'.events| > 0 && t'.events[|t'.events| - 1].RequestEvent?
  {
  }

  /** So a stream that is still running, ordered or not, has forwarded something of its request body exactly
      when some chunk ended it. */
  lemma {:induction false} ForwardedIffEnded(server: Server, t: Trace, msgs: seq<In>)
    requires !t.state.requestBodyComplete && NothingForwarded(t)
    requires DeliverAll(server, t, msgs).state.status == Running
    ensures NothingForwarded(DeliverAll(server, t, msgs)) <==> NoRequestEnd(msgs)
    decreases |msgs|
  {
    if NoRequestEnd(msgs) {
      UnfinishedBodyIsNeverForwarded(server, t, msgs);
    } else {
      if t.state.status != Running {
        StoppedStaysPut(server, t, msgs);
      }
      var next := Deliver(server, t, msgs[0]);
      if next.state.status != Running {
        StoppedStaysPut(server, next, msgs[1..]);
      }
      if msgs[0].RequestBody? && msgs[0].eos {
        EndNotifies(server, t, msgs[0].bytes);
        EventsGrow(server, next, msgs[1..]);
        assert DeliverAll(server, next, msgs[1..]).events[|next.events| - 1].RequestEvent?;
      } else {
        UnfinishedStep(server, t, msgs[0]);
        assert forall i :: 0 < i < |msgs| ==> msgs[i] == msgs[1..][i - 1];
        ForwardedIffEnded(server, next, msgs[1..]);
      }
    }
  }

  /** In particular from the start, whatever arrives. */
  lemma StreamForwardsIffEnded(server: Server, cycle: CycleState, msgs: seq<In>)
    requires DeliverAll(server, Start(cycle), msgs).state.status == Running
    ensures NothingForwarded(DeliverAll(server, Start(cycle), msgs)) <==> NoRequestEnd(msgs)
  {
    ForwardedIffEnded(server, Start(cycle), msgs);
  }
}
