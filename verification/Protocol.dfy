/** Legal conversations with Envoy: the order of its messages, and of the replies to them. */
module Protocol {
  import opened Common
  import opened Chunking
  import opened Handlers
  import opened Framework

  // ---------- well-ordered input ----------

  /** How far a stream has come; `body` remembers whether that direction had a body. */
  datatype Phase =
    | Opening
    | RequestOpen
    | RequestClosed(body: bool)
    | ResponseOpen(body: bool)
    | ResponseClosed(body: bool, responseBody: bool)

  /** One message later, or None if the message is out of order. Chunks repeated after the end of a
      body are in order; trailers are in order once their direction's body has ended. */
  function Advance(p: Phase, msg: In): Option<Phase> {
    match msg
    case RequestHeaders(_, _, eos) =>
      if !p.Opening? then None else if eos then Some(RequestClosed(false)) else Some(RequestOpen)
    case RequestBody(_, eos) =>
      if p.RequestOpen? then Some(if eos then RequestClosed(true) else p)
      else if !p.Opening? && p.body then Some(p) else None
    case RequestTrailers => if p.Opening? || p.RequestOpen? then None else Some(p)
    case ResponseHeaders(_, eos) =>
      if !p.RequestClosed? then None
      else Some(if eos then ResponseClosed(p.body, false) else ResponseOpen(p.body))
    case ResponseBody(_, eos) =>
      if p.ResponseOpen? then Some(if eos then ResponseClosed(p.body, true) else p)
      else if p.ResponseClosed? && p.responseBody then Some(p) else None
    case ResponseTrailers => if p.ResponseClosed? then Some(p) else None
    case Unrecognized => None
  }

  function AdvanceAll(p: Phase, msgs: seq<In>): Option<Phase>
    decreases |msgs|
  {
    if msgs == [] then Some(p) else
      var next := Advance(p, msgs[0]);
      if next.None? then None else AdvanceAll(next.value, msgs[1..])
  }

  lemma {:induction false} AdvanceSnoc(p: Phase, front: seq<In>, msg: In)
    requires AdvanceAll(p, front).Some?
    ensures AdvanceAll(p, front + [msg]) == Advance(AdvanceAll(p, front).value, msg)
    decreases |front|
  {
    if front == [] {
      assert front + [msg] == [msg];
    } else {
      assert (front + [msg])[1..] == front[1..] + [msg];
      AdvanceSnoc(Advance(p, front[0]).value, front[1..], msg);
    }
  }

  ghost predicate WellOrdered(msgs: seq<In>) { AdvanceAll(Opening, msgs).Some? }

  // ---------- legal output ----------

  predicate IsHeaders(request: bool, r: Reply) {
    if request then r.RequestHeadersReply? else r.ResponseHeadersReply?
  }

  predicate IsBody(request: bool, r: Reply) {
    if request then r.RequestBodyReply? else r.ResponseBodyReply?
  }

  predicate IsEnd(request: bool, r: Reply) { IsBody(request, r) && r.chunk.endOfStream }

  /** The rules for one direction: at most one headers reply, before every body reply; a body reply only
      after headers; no body reply after the one that ends the stream. */
  ghost predicate LegalIn(request: bool, replies: seq<Reply>) {
    && (forall i, j :: 0 <= i < j < |replies| && IsHeaders(request, replies[j]) ==>
          !IsHeaders(request, replies[i]) && !IsBody(request, replies[i]))
    && (forall j :: 0 <= j < |replies| && IsBody(request, replies[j]) ==>
          exists i :: 0 <= i < j && IsHeaders(request, replies[i]))
    && (forall i, j :: 0 <= i < j < |replies| && IsEnd(request, replies[i]) ==> !IsBody(request, replies[j]))
  }

  /** The rules of the ext-proc protocol; an immediate response is the last word. */
  ghost predicate Legal(replies: seq<Reply>) {
    && LegalIn(true, replies)
    && LegalIn(false, replies)
    && forall i :: 0 <= i < |replies| && replies[i].ImmediateResponse? ==> i == |replies| - 1
  }

  ghost predicate BodyEnded(request: bool, replies: seq<Reply>) {
    exists i :: 0 <= i < |replies| && IsEnd(request, replies[i])
  }

  /** How far the replies of one direction have come. */
  datatype Progress = NothingSent | HeadersSent | Ended

  /** A reader of the reply stream that knows only how far each direction has come. */
  datatype Reader = Reader(request: Progress, response: Progress, closed: bool)

  function Read(r: Reader, reply: Reply): Option<Reader> {
    if r.closed then None else
      match reply
      case RequestHeadersReply(_, _) => if r.request == NothingSent then Some(r.(request := HeadersSent)) else None
      case RequestBodyReply(c) =>
        if r.request == HeadersSent then Some(if c.endOfStream then r.(request := Ended) else r) else None
      case ResponseHeadersReply(_, _) => if r.response == NothingSent then Some(r.(response := HeadersSent)) else None
      case ResponseBodyReply(c) =>
        if r.response == HeadersSent then Some(if c.endOfStream then r.(response := Ended) else r) else None
      case RequestTrailersReply => Some(r)
      case ResponseTrailersReply => Some(r)
      case ImmediateResponse(_, _) => Some(r.(closed := true))
  }

  const Unread := Reader(NothingSent, NothingSent, false)

  /** The reader after a whole sequence, None if some reply was out of place. */
  function ReadAll(replies: seq<Reply>): Option<Reader> {
    if replies == [] then Some(Unread) else
      var r := ReadAll(replies[..|replies| - 1]);
      if r.None? then None else Read(r.value, replies[|replies| - 1])
  }

  function ProgressOf(request: bool, r: Reader): Progress { if request then r.request else r.response }

  /** What the reader's state says about the replies it has read. */
  ghost predicate DescribesIn(request: bool, p: Progress, replies: seq<Reply>) {
    && (p == NothingSent ==>
          forall i :: 0 <= i < |replies| ==> !IsHeaders(request, replies[i]) && !IsBody(request, replies[i]))
    && (p != NothingSent ==> exists i :: 0 <= i < |replies| && IsHeaders(request, replies[i]))
    && (p == Ended <==> BodyEnded(request, replies))
  }

  ghost predicate Describes(r: Reader, replies: seq<Reply>) {
    && DescribesIn(true, r.request, replies)
    && DescribesIn(false, r.response, replies)
    && (!r.closed ==> forall i :: 0 <= i < |replies| ==> !replies[i].ImmediateResponse?)
  }

  lemma ReadStepDescribes(request: bool, r: Reader, replies: seq<Reply>, reply: Reply)
    requires DescribesIn(request, ProgressOf(request, r), replies) && Read(r, reply).Some?
    ensures DescribesIn(request, ProgressOf(request, Read(r, reply).value), replies + [reply])
  {
    var more := replies + [reply];
    var before, after := ProgressOf(request, r), ProgressOf(request, Read(r, reply).value);
    assert forall i :: 0 <= i < |more| ==> more[i] == if i < |replies| then replies[i] else reply;
    if before != NothingSent {
      var i :| 0 <= i < |replies| && IsHeaders(request, replies[i]);
      assert IsHeaders(request, more[i]);
    } else if after != NothingSent {
      assert IsHeaders(request, more[|replies|]);
    }
    if before == Ended {
      var i :| 0 <= i < |replies| && IsEnd(request, replies[i]);
      assert IsEnd(request, more[i]);
    } else if after == Ended {
      assert IsEnd(request, more[|replies|]);
    }
  }

  lemma ReadStepLegal(request: bool, r: Reader, replies: seq<Reply>, reply: Reply)
    requires LegalIn(request, replies) && DescribesIn(request, ProgressOf(request, r), replies)
    requires Read(r, reply).Some?
    ensures LegalIn(request, replies + [reply])
  {
    var more, n := replies + [reply], |replies|;
    assert forall i :: 0 <= i < n ==> more[i] == replies[i];
    assert more[n] == reply;
    forall j | 0 <= j <= n && IsBody(request, more[j])
      ensures exists i :: 0 <= i < j && IsHeaders(request, more[i])
    {
      var i :| 0 <= i < j && i < n && IsHeaders(request, replies[i]);
      assert IsHeaders(request, more[i]);
    }
    forall i, j | 0 <= i < j <= n && IsHeaders(request, more[j])
      ensures !IsHeaders(request, more[i]) && !IsBody(request, more[i])
    {
      assert more[i] == replies[i];
      if j == n {
        assert ProgressOf(request, r) == NothingSent;
      }
    }
    forall i, j | 0 <= i < j <= n && IsEnd(request, more[i])
      ensures !IsBody(request, more[j])
    {
      assert more[i] == replies[i];
      if j == n {
        assert BodyEnded(request, replies);
      }
    }
  }

  lemma ReadStep(r: Reader, replies: seq<Reply>, reply: Reply)
    requires Describes(r, replies) && Legal(replies) && Read(r, reply).Some?
    ensures Describes(Read(r, reply).value, replies + [reply]) && Legal(replies + [reply])
  {
    ReadStepDescribes(true, r, replies, reply);
    ReadStepDescribes(false, r, replies, reply);
    ReadStepLegal(true, r, replies, reply);
    ReadStepLegal(false, r, replies, reply);
  }

  /** A reader that never objects has read a legal sequence. */
  lemma {:induction false} ReadableIsLegal(replies: seq<Reply>)
    requires ReadAll(replies).Some?
    ensures Legal(replies) && Describes(ReadAll(replies).value, replies)
  {
    if replies != [] {
      var front := replies[..|replies| - 1];
      ReadableIsLegal(front);
      ReadStep(ReadAll(front).value, front, replies[|replies| - 1]);
      assert front + [replies[|replies| - 1]] == replies;
    }
  }

  lemma ReadAllSnoc(replies: seq<Reply>, reply: Reply)
    requires ReadAll(replies).Some?
    ensures ReadAll(replies + [reply]) == Read(ReadAll(replies).value, reply)
  {
    assert (replies + [reply])[..|replies|] == replies;
  }

  /** Body replies of which exactly the last ends the stream. */
  ghost predicate WholeBody(request: bool, body: seq<Reply>) {
    && body != []
    && forall i :: 0 <= i < |body| ==>
         IsBody(request, body[i]) && (body[i].chunk.endOfStream <==> i == |body| - 1)
  }

  lemma ChunkedBodyIsWhole(out: Bytes)
    ensures WholeBody(true, RequestBodyReplies(out)) && WholeBody(false, ResponseBodyReplies(out))
  {
    SplitIsExact(out, true);
  }

  /** Reading a whole body ends that direction and touches nothing else. */
  function WithEnded(request: bool, r: Reader): Reader {
    if request then r.(request := Ended) else r.(response := Ended)
  }

  lemma {:induction false} ReadBody(replies: seq<Reply>, body: seq<Reply>, request: bool)
    requires ReadAll(replies).Some? && !ReadAll(replies).value.closed
    requires ProgressOf(request, ReadAll(replies).value) == HeadersSent
    requires WholeBody(request, body)
    ensures ReadAll(replies + body) == Some(WithEnded(request, ReadAll(replies).value))
    decreases |body|
  {
    ReadAllSnoc(replies, body[0]);
    if |body| == 1 {
      assert body == [body[0]];
    } else {
      assert replies + body == (replies + [body[0]]) + body[1..];
      ReadBody(replies + [body[0]], body[1..], request);
    }
  }

  // ---------- the machine and the reader move together ----------

  /** Where the replies must stand when a stream in phase p is still running. */
  ghost predicate InStep(p: Phase, s: State, r: Reader) {
    && !r.closed
    && (s.requestBodyComplete <==> !p.Opening? && !p.RequestOpen? && p.body)
    && (s.responseBodyComplete <==> p.ResponseClosed? && p.responseBody)
    && r.request == (match p
                     case Opening => NothingSent
                     case RequestOpen => NothingSent
                     case _ => if p.body then Ended else HeadersSent)
    && (match p
        case ResponseClosed(_, responseBody) => r.response == if responseBody then Ended else HeadersSent
        case ResponseOpen(_) =>
          && r.response == (if s.ctx.responseHeadersSent then HeadersSent else NothingSent)
          && (s.ctx.profile.needsResponseBuffering ==> !s.ctx.responseHeadersSent)
        case _ => r.response == NothingSent && !s.ctx.responseHeadersSent)
  }

  ghost predicate Tracks(p: Phase, t: Trace) {
    && ReadAll(t.replies).Some?
    && (t.state.status == Running ==> InStep(p, t.state, ReadAll(t.replies).value))
  }

  lemma ImmediateIsReadable(replies: seq<Reply>, status: int, text: string)
    requires ReadAll(replies).Some? && !ReadAll(replies).value.closed
    ensures ReadAll(replies + [ImmediateResponse(status, text)]).Some?
  {
    ReadAllSnoc(replies, ImmediateResponse(status, text));
  }

  /** An error ends the stream in a readable way whatever the handler had prepared. */
  lemma ErrorIsReadable(server: Server, p: Phase, t: Trace, msg: In)
    requires Tracks(p, t) && t.state.status == Running
    requires Dispatch(server, t.state, msg).handled.error.Some?
    ensures forall q :: Tracks(q, Deliver(server, t, msg))
  {
    var e := Dispatch(server, t.state, msg).handled.error.value;
    match HttpStatus(e.code)
    case None => assert t.replies + [] == t.replies;
    case Some(code) => ImmediateIsReadable(t.replies, code, e.msg);
  }

  /** What the request body handler leaves alone, and the answer it gives when it succeeds. */
  lemma RequestBodyAnswer(server: Server, c: Context, bytes: Bytes)
    requires HandleRequestBody(server, c, bytes).error.None?
    ensures var h := HandleRequestBody(server, c, bytes);
            && h.ctx.responseHeadersSent == c.responseHeadersSent
            && h.replies != [] && IsHeaders(true, h.replies[0]) && WholeBody(true, h.replies[1..])
  {
    var h := HandleRequestBody(server, c, bytes);
    var parsed := Unmarshal(server.codec, c.request.body, bytes);
    var run := RunRequestPipeline(server, c.(request := c.request.(body := parsed.value)));
    var out := OutgoingBody(server.codec, run.ctx.request, bytes);
    ChunkedBodyIsWhole(out.value);
    assert h.replies[1..] == RequestBodyReplies(out.value);
  }

  /** A headers reply followed by a whole body takes the reader from the start to the end. */
  lemma ReadAnswer(replies: seq<Reply>, answer: seq<Reply>, request: bool)
    requires ReadAll(replies).Some? && !ReadAll(replies).value.closed
    requires ProgressOf(request, ReadAll(replies).value) == NothingSent
    requires answer != [] && IsHeaders(request, answer[0]) && WholeBody(request, answer[1..])
    ensures ReadAll(replies + answer) == Some(WithEnded(request, ReadAll(replies).value))
  {
    ReadAllSnoc(replies, answer[0]);
    ReadBody(replies + [answer[0]], answer[1..], request);
    assert replies + answer == replies + [answer[0]] + answer[1..];
  }

  lemma RequestBodyTracks(server: Server, p: Phase, t: Trace, bytes: Bytes, eos: bool)
    requires Tracks(p, t) && t.state.status == Running
    requires Advance(p, RequestBody(bytes, eos)).Some?
    requires Dispatch(server, t.state, RequestBody(bytes, eos)).handled.error.None?
    ensures Tracks(Advance(p, RequestBody(bytes, eos)).value, Deliver(server, t, RequestBody(bytes, eos)))
  {
    assert t.replies + [] == t.replies;
    if !t.state.requestBodyComplete && eos {
      var whole := t.state.requestBody + bytes;
      RequestBodyAnswer(server, t.state.ctx, whole);
      ReadAnswer(t.replies, HandleRequestBody(server, t.state.ctx, whole).replies, true);
    }
  }

  /** A buffered response answers with headers and one complete body. */
  lemma BufferedAnswer(server: Server, c: Context, bytes: Bytes)
    requires HandleResponseBody(server, c, bytes).error.None?
    ensures var h := HandleResponseBody(server, c, bytes);
            h.replies != [] && IsHeaders(false, h.replies[0]) && WholeBody(false, h.replies[1..])
  {
    var h := HandleResponseBody(server, c, bytes);
    var parsed := ParseResponse(server.codec, c.response.body, bytes);
    if (c.profile.responsePlugins == [] && server.postProcessors == []) || parsed.None? {
      ChunkedBodyIsWhole(bytes);
      assert h.replies[1..] == ResponseBodyReplies(bytes);
    } else {
      var r := RunProcessors(
        c.profile.responsePlugins + server.postProcessors, c.response.(body := parsed.value), c.cycle);
      var out := OutgoingBody(server.codec, r.message, bytes);
      ChunkedBodyIsWhole(out.value);
      assert h.replies[1..] == ResponseBodyReplies(out.value);
    }
  }

  lemma BufferedTracks(server: Server, p: Phase, t: Trace, bytes: Bytes)
    requires Tracks(p, t) && t.state.status == Running && p.ResponseOpen?
    requires t.state.ctx.profile.needsResponseBuffering
    requires Dispatch(server, t.state, ResponseBody(bytes, true)).handled.error.None?
    ensures Tracks(ResponseClosed(p.body, true), Deliver(server, t, ResponseBody(bytes, true)))
  {
    var whole := t.state.responseBody + bytes;
    BufferedAnswer(server, t.state.ctx, whole);
    ReadAnswer(t.replies, HandleResponseBody(server, t.state.ctx, whole).replies, false);
  }

  lemma ReadChunk(replies: seq<Reply>, more: seq<Reply>)
    requires ReadAll(replies).Some? && !ReadAll(replies).value.closed
    requires |more| == (if ReadAll(replies).value.response == HeadersSent then 1 else 2)
    requires |more| == 2 ==> ReadAll(replies).value.response == NothingSent && more[0].ResponseHeadersReply?
    requires more[|more| - 1].ResponseBodyReply?
    ensures ReadAll(replies + more) ==
            Some(ReadAll(replies).value.(
                 response := if more[|more| - 1].chunk.endOfStream then Ended else HeadersSent))
  {
    ReadAllSnoc(replies, more[0]);
    if |more| == 1 {
      assert more == [more[0]];
    } else {
      ReadAllSnoc(replies + [more[0]], more[1]);
      assert replies + more == replies + [more[0]] + [more[1]];
    }
  }

  /** A streamed chunk is one body reply, preceded by headers if they are still due. */
  lemma StreamedTracks(server: Server, p: Phase, t: Trace, bytes: Bytes, eos: bool)
    requires Tracks(p, t) && t.state.status == Running && p.ResponseOpen?
    requires !t.state.ctx.profile.needsResponseBuffering
    requires Dispatch(server, t.state, ResponseBody(bytes, eos)).handled.error.None?
    ensures Tracks(if eos then ResponseClosed(p.body, true) else p, Deliver(server, t, ResponseBody(bytes, eos)))
  {
    ReadChunk(t.replies, HandleResponseChunk(t.state.ctx, bytes, eos).replies);
  }

  lemma RequestHeadersTrack(server: Server, p: Phase, t: Trace, msg: In)
    requires Tracks(p, t) && Advance(p, msg).Some? && t.state.status == Running && msg.RequestHeaders?
    ensures Tracks(Advance(p, msg).value, Deliver(server, t, msg))
  {
    var h := HandleRequestHeaders(t.state.ctx, msg.headers, msg.trace, msg.eos);
    if msg.eos {
      ReadAllSnoc(t.replies, h.replies[0]);
    } else {
      assert t.replies + [] == t.replies;
    }
  }

  lemma ResponseHeadersTrack(server: Server, p: Phase, t: Trace, msg: In)
    requires Tracks(p, t) && Advance(p, msg).Some? && t.state.status == Running && msg.ResponseHeaders?
    requires HandleResponseHeaders(server, t.state.ctx, msg.headers, msg.eos).error.None?
    ensures Tracks(Advance(p, msg).value, Deliver(server, t, msg))
  {
    var h := HandleResponseHeaders(server, t.state.ctx, msg.headers, msg.eos);
    if msg.eos {
      ReadAllSnoc(t.replies, h.replies[0]);
    } else {
      assert t.replies + [] == t.replies;
    }
  }

  lemma ResponseBodyTracks(server: Server, p: Phase, t: Trace, bytes: Bytes, eos: bool)
    requires Tracks(p, t) && t.state.status == Running
    requires Advance(p, ResponseBody(bytes, eos)).Some?
    requires Dispatch(server, t.state, ResponseBody(bytes, eos)).handled.error.None?
    ensures Tracks(Advance(p, ResponseBody(bytes, eos)).value, Deliver(server, t, ResponseBody(bytes, eos)))
  {
    assert t.replies + [] == t.replies;
    if !t.state.responseBodyComplete {
      if !t.state.ctx.profile.needsResponseBuffering {
        StreamedTracks(server, p, t, bytes, eos);
      } else if eos {
        BufferedTracks(server, p, t, bytes);
      }
    }
  }

  /** Trailers are answered and change nothing. */
  lemma TrailersDelivered(server: Server, t: Trace, msg: In)
    requires t.state.status == Running && (msg.RequestTrailers? || msg.ResponseTrailers?)
    ensures Deliver(server, t, msg) ==
            t.(replies := t.replies + [if msg.RequestTrailers? then RequestTrailersReply else ResponseTrailersReply])
  {
    assert t.events + [] == t.events && t.ran + [] == t.ran;
  }

  lemma TrailersReplyTracks(p: Phase, t: Trace, reply: Reply)
    requires Tracks(p, t) && t.state.status == Running && (reply.RequestTrailersReply? || reply.ResponseTrailersReply?)
    ensures Tracks(p, t.(replies := t.replies + [reply]))
  {
    ReadAllSnoc(t.replies, reply);
  }

  lemma TrailersTrack(server: Server, p: Phase, t: Trace, msg: In)
    requires Tracks(p, t) && Advance(p, msg).Some? && t.state.status == Running
    requires msg.RequestTrailers? || msg.ResponseTrailers?
    ensures Tracks(Advance(p, msg).value, Deliver(server, t, msg))
  {
    var reply := if msg.RequestTrailers? then RequestTrailersReply else ResponseTrailersReply;
    TrailersDelivered(server, t, msg);
    TrailersReplyTracks(p, t, reply);
    assert Deliver(server, t, msg) == t.(replies := t.replies + [reply]);
    assert Advance(p, msg) == Some(p);
  }

  lemma HandledTracks(server: Server, p: Phase, t: Trace, msg: In)
    requires Tracks(p, t) && Advance(p, msg).Some? && t.state.status == Running
    requires Dispatch(server, t.state, msg).handled.error.None?
    ensures Tracks(Advance(p, msg).value, Deliver(server, t, msg))
  {
    match msg
    case RequestHeaders(_, _, _) => RequestHeadersTrack(server, p, t, msg);
    case ResponseHeaders(_, _) => ResponseHeadersTrack(server, p, t, msg);
    case RequestBody(bytes, eos) => RequestBodyTracks(server, p, t, bytes, eos);
    case ResponseBody(bytes, eos) => ResponseBodyTracks(server, p, t, bytes, eos);
    case RequestTrailers => TrailersTrack(server, p, t, msg);
    case ResponseTrailers => TrailersTrack(server, p, t, msg);
  }

  /** Every single message keeps the machine, the phase and the reader together. */
  lemma DeliverTracks(server: Server, p: Phase, t: Trace, msg: In)
    requires Tracks(p, t) && Advance(p, msg).Some?
    ensures Tracks(Advance(p, msg).value, Deliver(server, t, msg))
  {
    if t.state.status == Running {
      if Dispatch(server, t.state, msg).handled.error.Some? {
        ErrorIsReadable(server, p, t, msg);
      } else {
        HandledTracks(server, p, t, msg);
      }
    }
  }

  lemma {:induction false} DeliverAllTracks(server: Server, p: Phase, t: Trace, msgs: seq<In>)
    requires Tracks(p, t) && AdvanceAll(p, msgs).Some?
    ensures Tracks(AdvanceAll(p, msgs).value, DeliverAll(server, t, msgs))
    decreases |msgs|
  {
    if msgs != [] {
      DeliverTracks(server, p, t, msgs[0]);
      DeliverAllTracks(server, Advance(p, msgs[0]).value, Deliver(server, t, msgs[0]), msgs[1..]);
    }
  }

  /** Every well-ordered stream, however far it has come and whatever the plugins do, has received a
      legal reply sequence; while it is running, a body that Envoy has finished has been answered in full. */
  lemma RepliesAreLegal(server: Server, cycle: CycleState, msgs: seq<In>)
    requires WellOrdered(msgs)
    ensures var t := DeliverAll(server, Start(cycle), msgs);
            var p := AdvanceAll(Opening, msgs).value;
            && Legal(t.replies)
            && (t.state.status == Running ==>
                  && (BodyEnded(true, t.replies) <==> !p.Opening? && !p.RequestOpen? && p.body)
                  && (BodyEnded(false, t.replies) <==> p.ResponseClosed? && p.responseBody))
  {
    DeliverAllTracks(server, Opening, Start(cycle), msgs);
    ReadableIsLegal(DeliverAll(server, Start(cycle), msgs).replies);
  }
}
