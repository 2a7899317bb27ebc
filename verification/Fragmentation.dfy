/** The way Envoy cuts the request body, and what it repeats after the end, make no difference. */
module Fragmentation {
  import opened Common
  import opened Handlers
  import opened Framework

  /** The same input with the request body in one piece where its end of stream stood, and without the
      chunks repeated after it. `held` are the bytes seen so far. */
  function Normalize(msgs: seq<In>, held: Bytes, complete: bool): seq<In>
    decreases |msgs|
  {
    if msgs == [] then []
    else if !msgs[0].RequestBody? then [msgs[0]] + Normalize(msgs[1..], held, complete)
    else if complete then Normalize(msgs[1..], held, complete)
    else if !msgs[0].eos then Normalize(msgs[1..], held + msgs[0].bytes, complete)
    else [RequestBody(held + msgs[0].bytes, true)] + Normalize(msgs[1..], [], true)
  }

  /** The request body a stream delivers: its chunks up to the first end of stream. */
  function DeliveredBody(msgs: seq<In>): Bytes
    decreases |msgs|
  {
    if msgs == [] then []
    else if !msgs[0].RequestBody? then DeliveredBody(msgs[1..])
    else if msgs[0].eos then msgs[0].bytes
    else msgs[0].bytes + DeliveredBody(msgs[1..])
  }

  /** Everything but the request body. */
  function Others(msgs: seq<In>): seq<In>
    decreases |msgs|
  {
    if msgs == [] then []
    else if msgs[0].RequestBody? then Others(msgs[1..])
    else [msgs[0]] + Others(msgs[1..])
  }

  ghost predicate NoRequestEnd(msgs: seq<In>) {
    forall i :: 0 <= i < |msgs| && msgs[i].RequestBody? ==> !msgs[i].eos
  }

  /** After the end of the body only its repetitions go. */
  lemma {:induction false} RepetitionsGo(msgs: seq<In>)
    ensures Normalize(msgs, [], true) == Others(msgs)
    decreases |msgs|
  {
    if msgs != [] {
      RepetitionsGo(msgs[1..]);
    }
  }

  /** A body that never ends leaves nothing. */
  lemma {:induction false} UnfinishedBodyGoes(msgs: seq<In>, held: Bytes)
    requires NoRequestEnd(msgs)
    ensures Normalize(msgs, held, false) == Others(msgs)
    decreases |msgs|
  {
    if msgs != [] {
      UnfinishedBodyGoes(msgs[1..], if msgs[0].RequestBody? then held + msgs[0].bytes else held);
    }
  }

  /** The normal form keeps every other message in its place: with the body cut anyhow in `front`, ended by
      `last` and repeated anyhow in `back`, it is one chunk with all the bytes where the end stood. */
  lemma {:induction false} NormalFormIsOneChunk(front: seq<In>, last: Bytes, back: seq<In>, held: Bytes)
    requires NoRequestEnd(front)
    ensures Normalize(front + [RequestBody(last, true)] + back, held, false) ==
            Others(front) + [RequestBody(held + DeliveredBody(front + [RequestBody(last, true)]), true)] + Others(back)
    decreases |front|
  {
    var msgs := front + [RequestBody(last, true)];
    if front == [] {
      assert msgs + back == [RequestBody(last, true)] + back;
      assert DeliveredBody(msgs) == last;
      RepetitionsGo(back);
    } else {
      var rest := front[1..];
      assert msgs[1..] == rest + [RequestBody(last, true)];
      assert (msgs + back)[1..] == rest + [RequestBody(last, true)] + back;
      if front[0].RequestBody? {
        NormalFormIsOneChunk(rest, last, back, held + front[0].bytes);
        assert held + front[0].bytes + DeliveredBody(msgs[1..]) == held + (front[0].bytes + DeliveredBody(msgs[1..]));
      } else {
        NormalFormIsOneChunk(rest, last, back, held);
      }
    }
  }

  /** Two traces nobody outside can tell apart. */
  ghost predicate SameOutside(t: Trace, u: Trace) {
    t == u.(state := u.state.(requestBody := t.state.requestBody))
  }

  lemma {:induction false} StoppedStaysPut(server: Server, t: Trace, msgs: seq<In>)
    requires t.state.status != Running
    ensures DeliverAll(server, t, msgs) == t
    decreases |msgs|
  {
    if msgs != [] {
      StoppedStaysPut(server, t, msgs[1..]);
    }
  }

  /** No message but the request body's looks at, or touches, the buffered request bytes. */
  lemma DeliverOther(server: Server, t: Trace, u: Trace, msg: In)
    requires SameOutside(t, u) && !msg.RequestBody?
    ensures SameOutside(Deliver(server, t, msg), Deliver(server, u, msg))
    ensures Deliver(server, t, msg).state.requestBody == t.state.requestBody
    ensures Deliver(server, u, msg).state.requestBody == u.state.requestBody
    ensures Deliver(server, t, msg).state.requestBodyComplete == t.state.requestBodyComplete
  {
  }

  lemma DeliverLast(server: Server, t: Trace, u: Trace, bytes: Bytes)
    requires SameOutside(t, u) && !u.state.requestBodyComplete && u.state.requestBody == []
    ensures var t' := Deliver(server, t, RequestBody(bytes, true));
            && SameOutside(t', Deliver(server, u, RequestBody(t.state.requestBody + bytes, true)))
            && (t.state.status == Running ==> t'.state.requestBodyComplete)
  {
    assert [] + (t.state.requestBody + bytes) == t.state.requestBody + bytes;
  }

  lemma {:induction false} NormalizeIsSound(server: Server, t: Trace, u: Trace, msgs: seq<In>, held: Bytes, complete: bool)
    requires SameOutside(t, u)
    requires t.state.status == Running ==> t.state.requestBodyComplete == complete
    requires t.state.status == Running && !complete ==> t.state.requestBody == held && u.state.requestBody == []
    ensures SameOutside(DeliverAll(server, t, msgs), DeliverAll(server, u, Normalize(msgs, held, complete)))
    decreases |msgs|
  {
    if t.state.status != Running {
      StoppedStaysPut(server, t, msgs);
      StoppedStaysPut(server, u, Normalize(msgs, held, complete));
    } else if msgs != [] {
      var msg, rest := msgs[0], msgs[1..];
      var n := Normalize(msgs, held, complete);
      var t' := Deliver(server, t, msg);
      if !msg.RequestBody? {
        DeliverOther(server, t, u, msg);
        assert n[1..] == Normalize(rest, held, complete);
        NormalizeIsSound(server, t', Deliver(server, u, msg), rest, held, complete);
      } else if complete {
        SilentDelivery(server, t, msg);
        NormalizeIsSound(server, t', u, rest, held, complete);
      } else if !msg.eos {
        SilentDelivery(server, t, msg);
        NormalizeIsSound(server, t', u, rest, held + msg.bytes, complete);
      } else {
        DeliverLast(server, t, u, msg.bytes);
        assert n[1..] == Normalize(rest, [], true);
        NormalizeIsSound(server, t', Deliver(server, u, n[0]), rest, [], true);
      }
    }
  }

  /** A chunk that is not the first to end the body changes nothing but the buffer. */
  lemma SilentDelivery(server: Server, t: Trace, msg: In)
    requires msg.RequestBody? && t.state.status == Running && (t.state.requestBodyComplete || !msg.eos)
    ensures SameOutside(Deliver(server, t, msg), t)
    ensures Deliver(server, t, msg).state.requestBody ==
            if t.state.requestBodyComplete then t.state.requestBody else t.state.requestBody + msg.bytes
  {
    assert t.replies + [] == t.replies && t.events + [] == t.events && t.ran + [] == t.ran;
  }

  /** For every input sequence, ordered or not: replies, events, plugin calls and outcome are those of the
      stream whose request body arrives in a single chunk with nothing repeated. */
  lemma FragmentationIndependence(server: Server, cycle: CycleState, msgs: seq<In>)
    ensures var t := DeliverAll(server, Start(cycle), msgs);
            var u := DeliverAll(server, Start(cycle), Normalize(msgs, [], false));
            && t.replies == u.replies
            && t.events == u.events
            && t.ran == u.ran
            && t.state.status == u.state.status
  {
    NormalizeIsSound(server, Start(cycle), Start(cycle), msgs, [], false);
  }

  /** However a body is cut, and whatever is repeated after its end, the stream is that of the same messages
      with the whole body in one chunk. */
  lemma AnyCutIsOneChunk(server: Server, cycle: CycleState, front: seq<In>, last: Bytes, back: seq<In>)
    requires NoRequestEnd(front)
    ensures var t := DeliverAll(server, Start(cycle), front + [RequestBody(last, true)] + back);
            var whole := DeliveredBody(front + [RequestBody(last, true)]);
            var u := DeliverAll(server, Start(cycle), Others(front) + [RequestBody(whole, true)] + Others(back));
            && t.replies == u.replies
            && t.events == u.events
            && t.ran == u.ran
            && t.state.status == u.state.status
  {
    var whole := DeliveredBody(front + [RequestBody(last, true)]);
    FragmentationIndependence(server, cycle, front + [RequestBody(last, true)] + back);
    NormalFormIsOneChunk(front, last, back, []);
    assert [] + whole == whole;
  }

  /** The log of events only ever grows. */
  lemma {:induction false} EventsGrow(server: Server, t: Trace, msgs: seq<In>)
    ensures t.events <= DeliverAll(server, t, msgs).events
    decreases |msgs|
  {
    if msgs != [] {
      EventsGrow(server, Deliver(server, t, msgs[0]), msgs[1..]);
    }
  }
}
