/** The extractor that counts in-flight requests and their tokens per model. */
module RequestMetadata {
  import opened Common
  import opened Json
  import opened Messages
  import opened Handlers
  import opened Datastore

  const REQUEST_METADATA := "request-metadata"

  datatype Count = Count(requests: int, tokens: int)
  type Counters = map<string, Count>

  function CountOf(c: Counters, model: string): Count { if model in c then c[model] else Count(0, 0) }

  /** `int64(x)` truncates towards zero. */
  function Truncate(x: real): int { if x >= 0.0 then x.Floor else -((-x).Floor) }

  function ModelOf(m: Message): string { StringAt(m.body, "model") }
  function TokensOf(m: Message): int { Truncate(NumberAt(m.body, "max_tokens")) }

  function FloorDecrement(v: int, delta: int): (r: int)
    ensures v >= delta ==> r == v - delta
    ensures v < delta ==> r == 0
  {
    if v - delta < 0 then 0 else v - delta
  }

  function Absorb(c: Counters, e: Event): Counters {
    var model, tokens := ModelOf(e.request), TokensOf(e.request);
    if model == "" then c else
      var n := CountOf(c, model);
      c[model := if e.RequestEvent? then Count(n.requests + 1, n.tokens + tokens)
                 else Count(FloorDecrement(n.requests, 1), FloorDecrement(n.tokens, tokens))]
  }

  function AbsorbAll(c: Counters, events: seq<Event>): Counters {
    if events == [] then c else Absorb(AbsorbAll(c, events[..|events| - 1]), events[|events| - 1])
  }

  /** However events are lost or repeated, no model's request count is ever negative. */
  lemma {:induction false} RequestsNeverNegative(c: Counters, events: seq<Event>, model: string)
    requires forall m :: CountOf(c, m).requests >= 0
    ensures CountOf(AbsorbAll(c, events), model).requests >= 0
  {
    if events != [] {
      var last := events[|events| - 1];
      RequestsNeverNegative(c, events[..|events| - 1], model);
      RequestsNeverNegative(c, events[..|events| - 1], ModelOf(last.request));
    }
  }

  // ---------- the exact law of the counters ----------

  /** The two components of a count: the number of requests, or their tokens. */
  function LoadOf(c: Count, tokens: bool): int { if tokens then c.tokens else c.requests }

  function Weight(m: Message, tokens: bool): int { if tokens then TokensOf(m) else 1 }

  /** What an event would add without a floor. */
  function Change(e: Event, model: string, tokens: bool): int {
    if ModelOf(e.request) != model then 0
    else if e.RequestEvent? then Weight(e.request, tokens) else -Weight(e.request, tokens)
  }

  /** Requests of the model minus responses, by number or by tokens. */
  function Balance(events: seq<Event>, model: string, tokens: bool): int {
    if events == [] then 0 else
      Balance(events[..|events| - 1], model, tokens) + Change(events[|events| - 1], model, tokens)
  }

  /** The floor takes effect on this component of the model's count. */
  predicate Floors(c: Counters, e: Event, model: string, tokens: bool) {
    e.ResponseEvent? && ModelOf(e.request) == model && LoadOf(CountOf(c, model), tokens) < Weight(e.request, tokens)
  }

  /** By how much. */
  function Shortfall(c: Counters, e: Event, model: string, tokens: bool): (r: int)
    ensures r >= 0 && (r > 0 <==> Floors(c, e, model, tokens))
  {
    if Floors(c, e, model, tokens) then Weight(e.request, tokens) - LoadOf(CountOf(c, model), tokens) else 0
  }

  function Shortfalls(events: seq<Event>, model: string, tokens: bool): (r: int)
    ensures r >= 0
  {
    if events == [] then 0 else
      var front := events[..|events| - 1];
      Shortfalls(front, model, tokens) + Shortfall(AbsorbAll(map[], front), events[|events| - 1], model, tokens)
  }

  /** The floor takes effect at event n. */
  ghost predicate FloorsAt(events: seq<Event>, n: nat, model: string, tokens: bool)
    requires n < |events|
  {
    Floors(AbsorbAll(map[], events[..n]), events[n], model, tokens)
  }

  ghost predicate FloorFree(events: seq<Event>, model: string, tokens: bool) {
    forall n :: 0 <= n < |events| ==> !FloorsAt(events, n, model, tokens)
  }

  /** For every list of events, whatever was lost, repeated or negative: a counter is the balance of its events
      plus what its floors have kept back. */
  lemma {:induction false} CountersAreBalancePlusShortfalls(events: seq<Event>, model: string, tokens: bool)
    requires model != ""
    ensures LoadOf(CountOf(AbsorbAll(map[], events), model), tokens) ==
            Balance(events, model, tokens) + Shortfalls(events, model, tokens)
  {
    if events != [] {
      CountersAreBalancePlusShortfalls(events[..|events| - 1], model, tokens);
    }
  }

  lemma FloorFreeSnoc(events: seq<Event>, model: string, tokens: bool)
    requires events != []
    ensures var n := |events| - 1;
            FloorFree(events, model, tokens) <==>
            FloorFree(events[..n], model, tokens) && !Floors(AbsorbAll(map[], events[..n]), events[n], model, tokens)
  {
    var n := |events| - 1;
    var front := events[..n];
    forall k | 0 <= k < n ensures FloorsAt(front, k, model, tokens) <==> FloorsAt(events, k, model, tokens) {
      assert front[..k] == events[..k];
    }
    assert FloorsAt(events, n, model, tokens) <==> Floors(AbsorbAll(map[], front), events[n], model, tokens);
  }

  lemma {:induction false} NoShortfallIffFloorFree(events: seq<Event>, model: string, tokens: bool)
    ensures Shortfalls(events, model, tokens) == 0 <==> FloorFree(events, model, tokens)
  {
    if events != [] {
      NoShortfallIffFloorFree(events[..|events| - 1], model, tokens);
      FloorFreeSnoc(events, model, tokens);
    }
  }

  /** So a counter never falls below the balance of its events, and equals it exactly when no floor has taken
      effect on it. */
  lemma CounterIsBalanceIffFloorFree(events: seq<Event>, model: string, tokens: bool)
    requires model != ""
    ensures var n := LoadOf(CountOf(AbsorbAll(map[], events), model), tokens);
            && n >= Balance(events, model, tokens)
            && (n == Balance(events, model, tokens) <==> FloorFree(events, model, tokens))
  {
    CountersAreBalancePlusShortfalls(events, model, tokens);
    NoShortfallIffFloorFree(events, model, tokens);
  }

  // ---------- what an event counts, by the fields of its request ----------

  /** The model is the string under "model", when there is one. */
  lemma ModelIsField(m: Message, model: string)
    requires model != ""
    ensures ModelOf(m) == model <==> "model" in m.body && m.body["model"] == Str(model)
    ensures ModelOf(m) == "" <==> "model" !in m.body || !m.body["model"].Str? || m.body["model"] == Str("")
  {
  }

  /** The tokens are the number under "max_tokens" without its fraction, and 0 when there is none. */
  lemma TokensAreField(m: Message, x: real)
    ensures "max_tokens" !in m.body || !m.body["max_tokens"].Num? ==> TokensOf(m) == 0
    ensures "max_tokens" in m.body && m.body["max_tokens"] == Num(x) ==>
              if x >= 0.0 then TokensOf(m) >= 0 && 0.0 <= x - (TokensOf(m) as real) < 1.0
              else TokensOf(m) <= 0 && 0.0 <= (TokensOf(m) as real) - x < 1.0
  {
  }

  /** A request naming a model, with a whole number of max_tokens, adds one request and that many tokens to this model
      alone; its response takes them off again, down to 0 at most; without a model nothing is counted. */
  lemma EventCounts(c: Counters, e: Event, model: string, tokens: int, other: string)
    requires "max_tokens" in e.request.body && e.request.body["max_tokens"] == Num(tokens as real)
    requires "model" in e.request.body && e.request.body["model"] == Str(model)
    ensures var n, n' := CountOf(c, model), CountOf(Absorb(c, e), model);
            && (model == "" ==> Absorb(c, e) == c)
            && (model != "" && e.RequestEvent? ==> n' == Count(n.requests + 1, n.tokens + tokens))
            && (model != "" && e.ResponseEvent? ==>
                  && n'.requests == (if n.requests >= 1 then n.requests - 1 else 0)
                  && n'.tokens == (if n.tokens >= tokens then n.tokens - tokens else 0))
            && (other != model ==> CountOf(Absorb(c, e), other) == CountOf(c, other))
  {
  }

  // ---------- the extractor ----------

  function Touched(events: seq<Event>): set<string> {
    if events == [] then {} else
      var m := ModelOf(events[|events| - 1].request);
      Touched(events[..|events| - 1]) + (if m == "" then {} else {m})
  }

  /** The models some event names. */
  lemma {:induction false} TouchedAreNamed(events: seq<Event>, model: string)
    ensures model in Touched(events) <==>
            model != "" && exists i :: 0 <= i < |events| && ModelOf(events[i].request) == model
  {
    if events != [] {
      var front, last := events[..|events| - 1], events[|events| - 1];
      TouchedAreNamed(front, model);
      assert forall i :: 0 <= i < |front| ==> front[i] == events[i];
    }
  }

  function CountIn(a: Attributes): Option<Count> {
    if REQUEST_METADATA in a.others && a.others[REQUEST_METADATA].RequestCount?
    then Some(Count(a.others[REQUEST_METADATA].requests, a.others[REQUEST_METADATA].tokens)) else None
  }

  /** What the extractor leaves alone: everything but the count. */
  ghost predicate SameButCount(a: Attributes, b: Attributes) {
    && a.prices == b.prices && a.groups == b.groups
    && a.others - {REQUEST_METADATA} == b.others - {REQUEST_METADATA}
  }

  /** Afterwards these models' counts are on their attribute maps; nothing else has changed. */
  ghost predicate Published(before: Models, after: Models, models: set<string>, counters: Counters) {
    && after.Keys == before.Keys + models
    && (forall m :: CountIn(AttributesOf(after, m)) ==
          if m in models then Some(CountOf(counters, m)) else CountIn(AttributesOf(before, m)))
    && (forall m :: SameButCount(AttributesOf(after, m), AttributesOf(before, m)))
  }

  /** One model more. */
  ghost predicate PublishedFor(before: Models, after: Models, model: string, c: Count) {
    && after.Keys == before.Keys + {model}
    && CountIn(AttributesOf(after, model)) == Some(c)
    && SameButCount(AttributesOf(after, model), AttributesOf(before, model))
    && forall m :: m != model ==> AttributesOf(after, m) == AttributesOf(before, m)
  }

  lemma PublishedOneMore(
    before: Models, between: Models, after: Models, models: set<string>, counters: Counters, model: string)
    requires Published(before, between, models, counters)
    requires PublishedFor(between, after, model, CountOf(counters, model))
    ensures Published(before, after, models + {model}, counters)
  {
    forall m
      ensures CountIn(AttributesOf(after, m)) ==
              if m in models + {model} then Some(CountOf(counters, m)) else CountIn(AttributesOf(before, m))
      ensures SameButCount(AttributesOf(after, m), AttributesOf(before, m))
    {
      assert SameButCount(AttributesOf(between, m), AttributesOf(before, m));
    }
  }

  class RequestMetadataExtractor {
    const ds: Store
    var counters: Counters

    constructor (ds: Store)
      ensures this.ds == ds && counters == map[]
    {
      this.ds, counters := ds, map[];
    }

    /** A batch of events; every model touched is published with its final count. A count that has gone from
        the attribute maps meanwhile, or of a model not touched, is not restored. */
    method Extract(events: seq<Event>)
      modifies this, ds
      ensures counters == AbsorbAll(old(counters), events)
      ensures Published(old(ds.models), ds.models, Touched(events), counters)
    {
      var updated: Counters := map[];
      for i := 0 to |events|
        invariant counters == AbsorbAll(old(counters), events[..i])
        invariant updated.Keys == Touched(events[..i])
        invariant forall m :: m in updated ==> updated[m] == CountOf(counters, m)
        invariant ds.models == old(ds.models)
      {
        assert events[..i + 1][..i] == events[..i];
        var ev := events[i];
        var model := ModelOf(ev.request);
        if model != "" {
          var c := CountOf(counters, model);
          if ev.RequestEvent? {
            c := Count(c.requests + 1, c.tokens + TokensOf(ev.request));
          } else {
            c := Count(FloorDecrement(c.requests, 1), FloorDecrement(c.tokens, TokensOf(ev.request)));
          }
          counters := counters[model := c];
          updated := updated[model := c];
        }
      }
      assert events[..|events|] == events;
      Publish(updated);
    }

    method PublishOne(model: string, c: Count)
      modifies ds
      ensures PublishedFor(old(ds.models), ds.models, model, c)
    {
      var a := ds.GetOrCreateModel(model);
      ds.PutAttributes(model, a.(others := a.others[REQUEST_METADATA := RequestCount(c.requests, c.tokens)]));
    }

    /** The loop over the updated models, in whatever order the map yields them. */
    method Publish(updated: Counters)
      modifies ds
      ensures Published(old(ds.models), ds.models, updated.Keys, updated)
    {
      var rest := updated.Keys;
      while rest != {}
        invariant rest <= updated.Keys
        invariant Published(old(ds.models), ds.models, updated.Keys - rest, updated)
        decreases rest
      {
        var model :| model in rest;
        ghost var between := ds.models;
        PublishOne(model, updated[model]);
        PublishedOneMore(old(ds.models), between, ds.models, updated.Keys - rest, updated, model);
        assert updated.Keys - (rest - {model}) == updated.Keys - rest + {model};
        rest := rest - {model};
      }
    }
  }
}

/** Any number of streams, one lossy buffer, one event loop, one extractor. */
module InFlight {
  import opened Common
  import opened Json
  import opened Messages
  import opened Framework
  import opened Handlers
  import opened Protocol
  import opened Lifecycle
  import opened RequestMetadata
  import opened Sums
  import EventBus
  import Responses

  // ---------- a ledger of open requests ----------

  datatype Entry = Entry(stream: nat, event: Event)
  datatype Open = Open(model: string, tokens: int)
  type Ledger = map<nat, Open>

  /** A request opens its stream's account; the response closes it. Requests naming no model are not counted. */
  function Post(l: Ledger, e: Entry): Ledger {
    if ModelOf(e.event.request) == "" then l
    else if e.event.RequestEvent? then l[e.stream := Open(ModelOf(e.event.request), TokensOf(e.event.request))]
    else l - {e.stream}
  }

  function Books(log: seq<Entry>): Ledger {
    if log == [] then map[] else Post(Books(log[..|log| - 1]), log[|log| - 1])
  }

  /** The entry a stream may add: a first request, or the response to its open request. */
  ghost predicate InOrder(l: Ledger, e: Entry) {
    var o := Open(ModelOf(e.event.request), TokensOf(e.event.request));
    && (o.model != "" && e.event.RequestEvent? ==> e.stream !in l)
    && (o.model != "" && e.event.ResponseEvent? ==> e.stream in l && l[e.stream] == o)
  }

  ghost predicate Disciplined(log: seq<Entry>) {
    log == [] || (Disciplined(log[..|log| - 1]) && InOrder(Books(log[..|log| - 1]), log[|log| - 1]))
  }

  function Events(log: seq<Entry>): seq<Event> {
    if log == [] then [] else Events(log[..|log| - 1]) + [log[|log| - 1].event]
  }

  /** What an open request weighs for a model: one request, or its tokens. */
  function WeightOf(o: Open, model: string, tokens: bool): int {
    if o.model != model then 0 else if tokens then o.tokens else 1
  }

  ghost function Weigh(l: Ledger, model: string, tokens: bool): nat -> int {
    id => if id in l then WeightOf(l[id], model, tokens) else 0
  }

  /** The number of open requests of a model, or the sum of their tokens. */
  ghost function Load(l: Ledger, model: string, tokens: bool): int { Sum(l.Keys, Weigh(l, model, tokens)) }

  lemma LoadInsert(l: Ledger, id: nat, o: Open, model: string, tokens: bool)
    requires id !in l
    ensures Load(l[id := o], model, tokens) == Load(l, model, tokens) + WeightOf(o, model, tokens)
  {
    var l' := l[id := o];
    SumRemove(l'.Keys, Weigh(l', model, tokens), id);
    assert l'.Keys - {id} == l.Keys;
    SumCongruent(l.Keys, Weigh(l', model, tokens), Weigh(l, model, tokens));
  }

  lemma LoadRemove(l: Ledger, id: nat, model: string, tokens: bool)
    requires id in l
    ensures Load(l - {id}, model, tokens) == Load(l, model, tokens) - WeightOf(l[id], model, tokens)
  {
    SumRemove(l.Keys, Weigh(l, model, tokens), id);
    assert (l - {id}).Keys == l.Keys - {id};
    SumCongruent(l.Keys - {id}, Weigh(l - {id}, model, tokens), Weigh(l, model, tokens));
  }

  /** The streams with an open request for the model. */
  ghost function OpenFor(l: Ledger, model: string): set<nat> { set id | id in l.Keys && l[id].model == model }

  lemma OpenForRemove(l: Ledger, id: nat, model: string)
    requires id in l
    ensures |OpenFor(l, model)| == |OpenFor(l - {id}, model)| + WeightOf(l[id], model, false)
  {
    var rest := OpenFor(l - {id}, model);
    assert id !in rest;
    if l[id].model == model {
      assert OpenFor(l, model) == rest + {id};
    } else {
      assert OpenFor(l, model) == rest;
    }
  }

  /** By number, the load is how many streams have an open request for the model. */
  lemma {:induction false} LoadIsCardinality(l: Ledger, model: string)
    ensures Load(l, model, false) == |OpenFor(l, model)|
    decreases |l.Keys|
  {
    if l.Keys == {} {
      assert OpenFor(l, model) == {};
    } else {
      var id :| id in l;
      LoadRemove(l, id, model, false);
      OpenForRemove(l, id, model);
      assert (l - {id}).Keys == l.Keys - {id};
      LoadIsCardinality(l - {id}, model);
    }
  }

  ghost predicate NonNegative(l: Ledger) { forall id :: id in l ==> l[id].tokens >= 0 }

  lemma LoadNonNegative(l: Ledger, model: string, tokens: bool)
    requires tokens ==> NonNegative(l)
    ensures Load(l, model, tokens) >= 0
  {
    SumNonNegative(l.Keys, Weigh(l, model, tokens));
  }

  /** An open request is covered by its model's load. */
  lemma LoadCovers(l: Ledger, id: nat, tokens: bool)
    requires (tokens ==> NonNegative(l)) && id in l
    ensures Load(l, l[id].model, tokens) >= WeightOf(l[id], l[id].model, tokens)
  {
    LoadRemove(l, id, l[id].model, tokens);
    LoadNonNegative(l - {id}, l[id].model, tokens);
  }


  // ---------- the counters of a disciplined log ----------

  lemma EventsSnoc(log: seq<Entry>, e: Entry)
    ensures Events(log + [e]) == Events(log) + [e.event]
  {
    assert (log + [e])[..|log|] == log;
  }

  lemma {:induction false} EventsPrefix(log: seq<Entry>, n: nat)
    requires n <= |log|
    ensures |Events(log)| == |log| && Events(log)[..n] == Events(log[..n])
    ensures n < |log| ==> Events(log)[n] == log[n].event
  {
    if n == |log| {
      assert log[..n] == log;
      if log != [] {
        EventsPrefix(log[..|log| - 1], |log| - 1);
      }
    } else {
      var front := log[..|log| - 1];
      EventsPrefix(front, n);
      assert front[..n] == log[..n];
      assert Events(log)[..n] == Events(front)[..n];
    }
  }

  lemma {:induction false} BalanceOfConcat(a: seq<Event>, b: seq<Event>, model: string, tokens: bool)
    ensures Balance(a + b, model, tokens) == Balance(a, model, tokens) + Balance(b, model, tokens)
    decreases |b|
  {
    if b == [] {
      assert a + b == a;
    } else {
      assert (a + b)[..|a + b| - 1] == a + b[..|b| - 1];
      BalanceOfConcat(a, b[..|b| - 1], model, tokens);
    }
  }

  /** Requests minus responses of a disciplined log are its open requests. */
  lemma {:induction false} BalanceIsLoad(log: seq<Entry>, model: string, tokens: bool)
    requires Disciplined(log) && model != ""
    ensures Balance(Events(log), model, tokens) == Load(Books(log), model, tokens)
  {
    if log != [] {
      var front, last := log[..|log| - 1], log[|log| - 1];
      BalanceIsLoad(front, model, tokens);
      assert Events(log)[..|Events(log)| - 1] == Events(front);
      if ModelOf(last.event.request) != "" {
        if last.event.RequestEvent? {
          LoadInsert(Books(front), last.stream,
            Open(ModelOf(last.event.request), TokensOf(last.event.request)), model, tokens);
        } else {
          LoadRemove(Books(front), last.stream, model, tokens);
        }
      }
    }
  }

  ghost predicate TokensNonNegative(log: seq<Entry>) {
    forall i :: 0 <= i < |log| ==> TokensOf(log[i].event.request) >= 0
  }

  lemma {:induction false} BooksNonNegative(log: seq<Entry>)
    requires TokensNonNegative(log)
    ensures NonNegative(Books(log))
  {
    if log != [] {
      BooksNonNegative(log[..|log| - 1]);
    }
  }

  /** A response closes a request that its model's load still covers. */
  lemma ResponseIsCovered(log: seq<Entry>, e: Entry, model: string, tokens: bool)
    requires Disciplined(log) && InOrder(Books(log), e) && model != "" && (tokens ==> TokensNonNegative(log))
    requires FloorFree(Events(log), model, tokens)
    ensures !Floors(AbsorbAll(map[], Events(log)), e.event, model, tokens)
  {
    CounterIsBalanceIffFloorFree(Events(log), model, tokens);
    BalanceIsLoad(log, model, tokens);
    if e.event.ResponseEvent? && ModelOf(e.event.request) == model {
      if tokens {
        BooksNonNegative(log);
      }
      LoadCovers(Books(log), e.stream, tokens);
    }
  }

  /** In a disciplined log no floor takes effect on the number of requests - nor, without negative tokens, on
      their tokens. */
  lemma {:induction false} DisciplinedIsFloorFree(log: seq<Entry>, model: string, tokens: bool)
    requires Disciplined(log) && model != "" && (tokens ==> TokensNonNegative(log))
    ensures FloorFree(Events(log), model, tokens)
  {
    if log != [] {
      var front, last := log[..|log| - 1], log[|log| - 1];
      DisciplinedIsFloorFree(front, model, tokens);
      ResponseIsCovered(front, last, model, tokens);
      FloorFreeSnoc(Events(log), model, tokens);
      assert Events(log)[..|Events(log)| - 1] == Events(front);
    }
  }

  /** Over any disciplined log the counters are the open requests of the ledger. */
  lemma CountersMatchLedger(log: seq<Entry>, model: string, tokens: bool)
    requires Disciplined(log) && model != "" && (tokens ==> TokensNonNegative(log))
    ensures LoadOf(CountOf(AbsorbAll(map[], Events(log)), model), tokens) == Load(Books(log), model, tokens)
  {
    DisciplinedIsFloorFree(log, model, tokens);
    CounterIsBalanceIffFloorFree(Events(log), model, tokens);
    BalanceIsLoad(log, model, tokens);
  }

  // ---------- streams behind the log ----------

  /** The log entries of one stream. */
  function Of(log: seq<Entry>, id: nat): seq<Event> {
    if log == [] then [] else
      Of(log[..|log| - 1], id) + if log[|log| - 1].stream == id then [log[|log| - 1].event] else []
  }

  /** A stream is open between its request event and its response event. */
  ghost predicate IsOpen(events: seq<Event>) {
    |events| == 1 && events[0].RequestEvent? && ModelOf(events[0].request) != ""
  }

  ghost predicate AllValid(log: seq<Entry>) { forall id :: ValidLog(Of(log, id)) }

  /** The account of a stream is what its events say. */
  ghost predicate AccountIsRight(l: Ledger, id: nat, events: seq<Event>) {
    && (id in l <==> IsOpen(events))
    && (id in l ==> l[id] == Open(ModelOf(events[0].request), TokensOf(events[0].request)))
  }

  ghost predicate BooksAreStreams(log: seq<Entry>) { forall id :: AccountIsRight(Books(log), id, Of(log, id)) }

  lemma OfSnoc(log: seq<Entry>, e: Entry, k: nat)
    ensures Of(log + [e], k) == if k == e.stream then Of(log, k) + [e.event] else Of(log, k)
  {
    assert (log + [e])[..|log|] == log;
    assert Of(log, k) + [] == Of(log, k);
  }

  /** One entry more for a stream whose events stay valid. */
  lemma PostIsRight(l: Ledger, events: seq<Event>, e: Entry)
    requires AccountIsRight(l, e.stream, events) && ValidLog(events + [e.event])
    ensures InOrder(l, e) && AccountIsRight(Post(l, e), e.stream, events + [e.event])
  {
    assert StringAt(map[], "model") == "";
    assert (events + [e.event])[|events|] == e.event;
  }

  /** Appending to a log whose streams stay valid. */
  lemma LogStepKeeps(log: seq<Entry>, e: Entry)
    requires Disciplined(log) && AllValid(log) && BooksAreStreams(log)
    requires ValidLog(Of(log, e.stream) + [e.event])
    ensures Disciplined(log + [e]) && AllValid(log + [e]) && BooksAreStreams(log + [e])
  {
    var log' := log + [e];
    assert log'[..|log'| - 1] == log;
    PostIsRight(Books(log), Of(log, e.stream), e);
    forall id ensures ValidLog(Of(log', id)) && AccountIsRight(Books(log'), id, Of(log', id)) {
      OfSnoc(log, e, id);
      assert AccountIsRight(Books(log), id, Of(log, id));
    }
  }

  // ---------- the system ----------

  /** `messages` are the messages each stream has received; `fired` the events of all streams in order, of which
      the buffer accepted `log` and lost `lost`; the loop has dispatched the first `taken` of the log. `counters`
      are the extractor's, `published` the counts on the models' attribute maps. */
  datatype System = System(
    messages: map<nat, seq<In>>,
    fired: seq<Entry>,
    log: seq<Entry>,
    lost: seq<Entry>,
    taken: nat,
    counters: Counters,
    published: Counters)

  const Quiescent := System(map[], [], [], [], 0, map[], map[])

  datatype Action =
    | Receive(stream: nat, msg: In)
    | Dispatch
    | Lose(model: string)

  function MessagesOf(s: System, id: nat): seq<In> { if id in s.messages then s.messages[id] else [] }

  /** One server, and the outside information each stream's plugins meet. */
  datatype World = World(server: Server, cycles: nat -> CycleState)

  function Fired(w: World, id: nat, msgs: seq<In>): seq<Event> {
    DeliverAll(w.server, Start(w.cycles(id)), msgs).events
  }

  /** The event that a further message makes a stream fire, if it does. */
  function NextEvent(w: World, id: nat, msgs: seq<In>, msg: In): Option<Event> {
    var before, after := Fired(w, id, msgs), Fired(w, id, msgs + [msg]);
    if |after| > |before| then Some(after[|before|]) else None
  }

  /** An event meets the buffer. */
  function Notify(s: System, e: Entry): System {
    var s' := s.(fired := s.fired + [e]);
    if |s.log| - s.taken < EventBus.DEFAULT_BUFFER_SIZE then s'.(log := s.log + [e]) else s'.(lost := s.lost + [e])
  }

  /** The extractor takes in one event and publishes its model's count. */
  function Take(s: System, e: Event): System {
    var counters := Absorb(s.counters, e);
    var model := ModelOf(e.request);
    s.(taken := s.taken + 1, counters := counters,
       published := if model == "" then s.published else s.published[model := CountOf(counters, model)])
  }

  /** A stream receives its next message - if that keeps it well ordered - and may fire an event; the loop
      dispatches the oldest accepted event; or a sync deletes a model that its file does not list, and with
      the model its attributes. */
  function Step(w: World, s: System, a: Action): System {
    match a
    case Dispatch => if s.taken < |s.log| then Take(s, s.log[s.taken].event) else s
    case Lose(model) => s.(published := s.published - {model})
    case Receive(id, msg) => if AdvanceAll(Opening, MessagesOf(s, id) + [msg]).None? then s else Hear(w, s, id, msg)
  }

  function Hear(w: World, s: System, id: nat, msg: In): System {
    var msgs := MessagesOf(s, id);
    Heard(s, id, msgs + [msg], NextEvent(w, id, msgs, msg))
  }

  /** A stream has received these messages, the last of which may have fired an event. */
  function Heard(s: System, id: nat, msgs: seq<In>, e: Option<Event>): System {
    var s' := s.(messages := s.messages[id := msgs]);
    if e.Some? then Notify(s', Entry(id, e.value)) else s'
  }

  function RunOf<S, A>(step: (S, A) -> S, start: S, actions: seq<A>): S {
    if actions == [] then start else step(RunOf(step, start, actions[..|actions| - 1]), actions[|actions| - 1])
  }

  lemma {:induction false} RunInvariant<S, A(!new)>(step: (S, A) -> S, start: S, actions: seq<A>, inv: S -> bool)
    requires inv(start) && forall s, a :: inv(s) ==> inv(step(s, a))
    ensures inv(RunOf(step, start, actions))
  {
    if actions != [] {
      RunInvariant(step, start, actions[..|actions| - 1], inv);
    }
  }

  lemma {:induction false} RunConcat<S, A>(step: (S, A) -> S, start: S, a: seq<A>, b: seq<A>)
    ensures RunOf(step, start, a + b) == RunOf(step, RunOf(step, start, a), b)
    decreases |b|
  {
    if b == [] {
      assert a + b == a;
    } else {
      assert (a + b)[..|a + b| - 1] == a + b[..|b| - 1];
      RunConcat(step, start, a, b[..|b| - 1]);
    }
  }

  lemma RunSnoc<S, A>(step: (S, A) -> S, start: S, actions: seq<A>, a: A)
    ensures RunOf(step, start, actions + [a]) == step(RunOf(step, start, actions), a)
  {
    assert (actions + [a])[..|actions|] == actions;
  }

  function Stepper(w: World): (System, Action) -> System { (s, a) => Step(w, s, a) }

  function Run(w: World, actions: seq<Action>): System { RunOf(Stepper(w), Quiescent, actions) }

  /** The log holds exactly each stream's events. */
  ghost predicate LogIsStreams(events: nat -> seq<Event>, log: seq<Entry>) {
    && Disciplined(log) && AllValid(log) && BooksAreStreams(log)
    && forall id :: Of(log, id) == events(id)
  }

  function EventsOf(w: World, s: System): nat -> seq<Event> { (id: nat) => Fired(w, id, MessagesOf(s, id)) }

  /** What was fired is what was accepted and what was lost. */
  ghost predicate Splits(fired: seq<Entry>, log: seq<Entry>, lost: seq<Entry>) {
    && |fired| == |log| + |lost|
    && (lost == [] ==> log == fired)
    && forall model, tokens ::
         Balance(Events(fired), model, tokens) == Balance(Events(log), model, tokens) + Balance(Events(lost), model, tokens)
  }

  /** The counters are those of the events dispatched. */
  ghost predicate LoopIsRight(s: System) {
    s.taken <= |s.log| && s.counters == AbsorbAll(map[], Events(s.log[..s.taken]))
  }

  /** A message makes a stream fire at most one event, after those it has fired. */
  lemma FiresAtMostOne(w: World, id: nat, msgs: seq<In>, msg: In)
    requires WellOrdered(msgs + [msg])
    ensures var after, e := Fired(w, id, msgs + [msg]), NextEvent(w, id, msgs, msg);
            && ValidLog(after)
            && after == if e.Some? then Fired(w, id, msgs) + [e.value] else Fired(w, id, msgs)
  {
    StreamEvents(w.server, w.cycles(id), msgs + [msg]);
    var t := DeliverAll(w.server, Start(w.cycles(id)), msgs);
    DeliverAllOfConcat(w.server, Start(w.cycles(id)), msgs, [msg]);
    assert DeliverAll(w.server, t, [msg]) == Deliver(w.server, t, msg);
    EventsOfTurn(w.server, t.state, msg);
    assert t.events + [] == t.events;
  }

  lemma AbsorbNext(log: seq<Entry>, n: nat)
    requires n < |log|
    ensures AbsorbAll(map[], Events(log[..n + 1])) == Absorb(AbsorbAll(map[], Events(log[..n])), log[n].event)
  {
    assert log[..n + 1] == log[..n] + [log[n]];
    EventsSnoc(log[..n], log[n]);
    assert (Events(log[..n]) + [log[n].event])[..|Events(log[..n])|] == Events(log[..n]);
  }

  lemma LogGrows(before: nat -> seq<Event>, after: nat -> seq<Event>, log: seq<Entry>, e: Entry)
    requires LogIsStreams(before, log)
    requires after(e.stream) == before(e.stream) + [e.event] && ValidLog(after(e.stream))
    requires forall k :: k != e.stream ==> after(k) == before(k)
    ensures LogIsStreams(after, log + [e])
  {
    assert Of(log, e.stream) == before(e.stream);
    LogStepKeeps(log, e);
    forall k ensures Of(log + [e], k) == after(k) {
      OfSnoc(log, e, k);
      assert Of(log, k) == before(k);
    }
  }

  lemma LogStays(before: nat -> seq<Event>, after: nat -> seq<Event>, log: seq<Entry>)
    requires LogIsStreams(before, log) && forall k :: after(k) == before(k)
    ensures LogIsStreams(after, log)
  {
  }

  lemma BalanceSnoc(log: seq<Entry>, e: Entry, model: string, tokens: bool)
    ensures Balance(Events(log + [e]), model, tokens) == Balance(Events(log), model, tokens) + Change(e.event, model, tokens)
  {
    EventsSnoc(log, e);
    assert (Events(log) + [e.event])[..|Events(log)|] == Events(log);
  }

  lemma AcceptedSplits(fired: seq<Entry>, log: seq<Entry>, lost: seq<Entry>, e: Entry)
    requires Splits(fired, log, lost)
    ensures Splits(fired + [e], log + [e], lost)
  {
    forall model, tokens
      ensures Balance(Events(fired + [e]), model, tokens) ==
              Balance(Events(log + [e]), model, tokens) + Balance(Events(lost), model, tokens)
    {
      BalanceSnoc(fired, e, model, tokens);
      BalanceSnoc(log, e, model, tokens);
    }
  }

  lemma LostSplits(fired: seq<Entry>, log: seq<Entry>, lost: seq<Entry>, e: Entry)
    requires Splits(fired, log, lost)
    ensures Splits(fired + [e], log, lost + [e])
  {
    forall model, tokens
      ensures Balance(Events(fired + [e]), model, tokens) ==
              Balance(Events(log), model, tokens) + Balance(Events(lost + [e]), model, tokens)
    {
      BalanceSnoc(fired, e, model, tokens);
      BalanceSnoc(lost, e, model, tokens);
    }
  }

  lemma HeardKeepsLoop(s: System, id: nat, msgs: seq<In>, e: Option<Event>)
    requires LoopIsRight(s)
    ensures LoopIsRight(Heard(s, id, msgs, e))
  {
    if e.Some? {
      assert (s.log + [Entry(id, e.value)])[..s.taken] == s.log[..s.taken];
    }
  }

  lemma StepKeepsLoop(w: World, s: System, a: Action)
    requires LoopIsRight(s)
    ensures LoopIsRight(Step(w, s, a))
  {
    match a
    case Dispatch =>
      if s.taken < |s.log| {
        AbsorbNext(s.log, s.taken);
      }
    case Lose(_) =>
    case Receive(id, msg) =>
      HeardKeepsLoop(s, id, MessagesOf(s, id) + [msg], NextEvent(w, id, MessagesOf(s, id), msg));
  }

  lemma LoopStaysRight(w: World, actions: seq<Action>)
    ensures LoopIsRight(Run(w, actions))
  {
    forall s, a | LoopIsRight(s) ensures LoopIsRight(Stepper(w)(s, a)) {
      StepKeepsLoop(w, s, a);
    }
    RunInvariant(Stepper(w), Quiescent, actions, s => LoopIsRight(s));
  }

  ghost predicate IsSplit(s: System) { Splits(s.fired, s.log, s.lost) }

  lemma HeardKeepsSplit(s: System, id: nat, msgs: seq<In>, e: Option<Event>)
    requires IsSplit(s)
    ensures IsSplit(Heard(s, id, msgs, e))
  {
    if e.Some? {
      if |s.log| - s.taken < EventBus.DEFAULT_BUFFER_SIZE {
        AcceptedSplits(s.fired, s.log, s.lost, Entry(id, e.value));
      } else {
        LostSplits(s.fired, s.log, s.lost, Entry(id, e.value));
      }
    }
  }

  lemma FiredIsSplit(w: World, actions: seq<Action>)
    ensures IsSplit(Run(w, actions))
  {
    forall s, a | IsSplit(s) ensures IsSplit(Stepper(w)(s, a)) {
      if a.Receive? {
        HeardKeepsSplit(
          s, a.stream, MessagesOf(s, a.stream) + [a.msg], NextEvent(w, a.stream, MessagesOf(s, a.stream), a.msg));
      }
    }
    RunInvariant(Stepper(w), Quiescent, actions, s => IsSplit(s));
  }

  lemma QuiescentIsStreams(w: World)
    ensures LogIsStreams(EventsOf(w, Quiescent), [])
  {
  }

  ghost predicate FiredMatches(w: World, s: System) { LogIsStreams(EventsOf(w, s), s.fired) }

  lemma HeardMessages(w: World, s: System, id: nat, msg: In)
    ensures var s', e := Hear(w, s, id, msg), NextEvent(w, id, MessagesOf(s, id), msg);
            && (forall k :: MessagesOf(s', k) == if k == id then MessagesOf(s, id) + [msg] else MessagesOf(s, k))
            && s'.fired == if e.Some? then s.fired + [Entry(id, e.value)] else s.fired
  {
  }

  /** What a message does to the events of the streams. */
  lemma HeardEvents(w: World, s: System, id: nat, msg: In)
    requires WellOrdered(MessagesOf(s, id) + [msg])
    ensures var before, after := EventsOf(w, s), EventsOf(w, Hear(w, s, id, msg));
            var e := NextEvent(w, id, MessagesOf(s, id), msg);
            && (forall k :: k != id ==> after(k) == before(k))
            && after(id) == (if e.Some? then before(id) + [e.value] else before(id))
            && ValidLog(after(id))
  {
    HeardMessages(w, s, id, msg);
    FiresAtMostOne(w, id, MessagesOf(s, id), msg);
  }

  lemma HearKeepsStreams(w: World, s: System, id: nat, msg: In)
    requires FiredMatches(w, s) && WellOrdered(MessagesOf(s, id) + [msg])
    ensures FiredMatches(w, Hear(w, s, id, msg))
  {
    var before, after := EventsOf(w, s), EventsOf(w, Hear(w, s, id, msg));
    var e := NextEvent(w, id, MessagesOf(s, id), msg);
    HeardMessages(w, s, id, msg);
    HeardEvents(w, s, id, msg);
    if e.Some? {
      LogGrows(before, after, s.fired, Entry(id, e.value));
    } else {
      LogStays(before, after, s.fired);
    }
  }

  lemma FiredIsStreams(w: World, actions: seq<Action>)
    ensures FiredMatches(w, Run(w, actions))
  {
    QuiescentIsStreams(w);
    forall s, a | FiredMatches(w, s) ensures FiredMatches(w, Stepper(w)(s, a)) {
      if a.Receive? && AdvanceAll(Opening, MessagesOf(s, a.stream) + [a.msg]).Some? {
        HearKeepsStreams(w, s, a.stream, a.msg);
      }
    }
    RunInvariant(Stepper(w), Quiescent, actions, s => FiredMatches(w, s));
  }

  // ---------- conservation ----------

  /** The streams between their request and their response event, with what their requests asked for. */
  ghost predicate AreOpenStreams(w: World, s: System, open: Ledger) {
    forall id :: AccountIsRight(open, id, Fired(w, id, MessagesOf(s, id)))
  }

  /** The count of a model, plus its requests still queued, minus its responses still queued. */
  function Pending(s: System, model: string, tokens: bool): int
    requires s.taken <= |s.log|
  {
    LoadOf(CountOf(s.counters, model), tokens) + Balance(Events(s.log[s.taken..]), model, tokens)
  }

  /** What the floors have kept back so far. */
  function KeptBack(s: System, model: string, tokens: bool): nat
    requires s.taken <= |s.log|
  {
    Shortfalls(Events(s.log[..s.taken]), model, tokens)
  }

  lemma {:induction false} EventsConcat(a: seq<Entry>, b: seq<Entry>)
    ensures Events(a + b) == Events(a) + Events(b)
    decreases |b|
  {
    if b == [] {
      assert a + b == a;
    } else {
      assert (a + b)[..|a + b| - 1] == a + b[..|b| - 1];
      EventsConcat(a, b[..|b| - 1]);
    }
  }

  lemma PendingIsBalance(s: System, model: string, tokens: bool)
    requires s.taken <= |s.log| && model != "" && s.counters == AbsorbAll(map[], Events(s.log[..s.taken]))
    ensures Pending(s, model, tokens) == Balance(Events(s.log), model, tokens) + KeptBack(s, model, tokens)
  {
    var done, queued := s.log[..s.taken], s.log[s.taken..];
    CountersAreBalancePlusShortfalls(Events(done), model, tokens);
    assert done + queued == s.log;
    EventsConcat(done, queued);
    BalanceOfConcat(Events(done), Events(queued), model, tokens);
  }

  /** The ledger of all events fired is that of the open streams. */
  lemma BooksAreOpenStreams(w: World, actions: seq<Action>)
    ensures AreOpenStreams(w, Run(w, actions), Books(Run(w, actions).fired))
  {
    var s := Run(w, actions);
    FiredIsStreams(w, actions);
    forall id ensures AccountIsRight(Books(s.fired), id, Fired(w, id, MessagesOf(s, id))) {
      assert AccountIsRight(Books(s.fired), id, Of(s.fired, id));
      assert Of(s.fired, id) == EventsOf(w, s)(id);
    }
  }

  /** The exact law of the whole system, whatever is lost and however negative max_tokens are: in every
      interleaving, per model, what is counted or still queued exceeds the number (or token sum) of the streams
      between their request and response events by exactly the lost responses minus the lost requests plus what
      the floors have kept back. */
  lemma InFlightDrift(w: World, actions: seq<Action>, model: string, tokens: bool)
    requires model != ""
    ensures var s := Run(w, actions);
            && s.taken <= |s.log|
            && AreOpenStreams(w, s, Books(s.fired))
            && Pending(s, model, tokens) ==
               Load(Books(s.fired), model, tokens) - Balance(Events(s.lost), model, tokens) + KeptBack(s, model, tokens)
  {
    var s := Run(w, actions);
    LoopStaysRight(w, actions);
    PendingIsBalance(s, model, tokens);
    FiredIsSplit(w, actions);
    FiredIsStreams(w, actions);
    BalanceIsLoad(s.fired, model, tokens);
    BooksAreOpenStreams(w, actions);
  }

  lemma NothingLostIsFloorFree(w: World, actions: seq<Action>, model: string, tokens: bool)
    requires model != "" && Run(w, actions).lost == [] && (tokens ==> TokensNonNegative(Run(w, actions).log))
    ensures var s := Run(w, actions); s.taken <= |s.log| && FloorFree(Events(s.log[..s.taken]), model, tokens)
  {
    var s := Run(w, actions);
    LoopStaysRight(w, actions);
    FiredIsSplit(w, actions);
    FiredIsStreams(w, actions);
    PrefixDisciplined(s.log, s.taken);
    DisciplinedIsFloorFree(s.log[..s.taken], model, tokens);
  }

  /** In-flight conservation. While the buffer has lost nothing, the number of requests is conserved: counted plus
      queued requests minus queued responses are the streams between their events, and no floor has taken
      effect; and so are the tokens, exactly as long as no floor has taken effect on them - which needs a
      negative max_tokens among the accepted events. */
  lemma InFlightIsConserved(w: World, actions: seq<Action>, model: string, tokens: bool)
    requires model != "" && Run(w, actions).lost == []
    ensures var s := Run(w, actions);
            && s.taken <= |s.log|
            && AreOpenStreams(w, s, Books(s.fired))
            && (Pending(s, model, tokens) == Load(Books(s.fired), model, tokens) <==>
                FloorFree(Events(s.log[..s.taken]), model, tokens))
            && (!tokens || TokensNonNegative(s.log) ==> FloorFree(Events(s.log[..s.taken]), model, tokens))
  {
    var s := Run(w, actions);
    InFlightDrift(w, actions, model, tokens);
    NoShortfallIffFloorFree(Events(s.log[..s.taken]), model, tokens);
    if !tokens || TokensNonNegative(s.log) {
      NothingLostIsFloorFree(w, actions, model, tokens);
    }
  }

  lemma {:induction false} PrefixDisciplined(log: seq<Entry>, n: nat)
    requires Disciplined(log) && n <= |log|
    ensures Disciplined(log[..n])
  {
    if n == |log| {
      assert log[..n] == log;
    } else {
      PrefixDisciplined(log[..|log| - 1], n);
      assert log[..|log| - 1][..n] == log[..n];
    }
  }

  /** Whatever is dropped, counts stay non-negative. */
  lemma CountsStayNonNegative(w: World, actions: seq<Action>, model: string)
    ensures CountOf(Run(w, actions).counters, model).requests >= 0
  {
    LoopStaysRight(w, actions);
    var s := Run(w, actions);
    RequestsNeverNegative(map[], Events(s.log[..s.taken]), model);
  }

  // ---------- lost responses ----------

  /** How many of the events are responses, or requests, of the model. */
  function CountEvents(events: seq<Event>, model: string, responses: bool): nat {
    if events == [] then 0 else
      var e := events[|events| - 1];
      CountEvents(events[..|events| - 1], model, responses) +
      (if ModelOf(e.request) == model && e.ResponseEvent? == responses then 1 else 0)
  }

  lemma {:induction false} BalanceByNumber(events: seq<Event>, model: string)
    ensures Balance(events, model, false) == CountEvents(events, model, false) - CountEvents(events, model, true)
  {
    if events != [] {
      BalanceByNumber(events[..|events| - 1], model);
    }
  }

  /** Lost responses leak: a model is over-counted by at least the responses lost minus the requests lost,
      for as long as the run goes on; and by exactly that while no floor has taken effect on it. */
  lemma LostResponsesLeak(w: World, actions: seq<Action>, model: string)
    requires model != ""
    ensures var s := Run(w, actions);
            && s.taken <= |s.log|
            && var excess := Pending(s, model, false) - Load(Books(s.fired), model, false);
               var leaked := CountEvents(Events(s.lost), model, true) - CountEvents(Events(s.lost), model, false);
               && excess >= leaked
               && (excess == leaked <==> FloorFree(Events(s.log[..s.taken]), model, false))
  {
    var s := Run(w, actions);
    InFlightDrift(w, actions, model, false);
    BalanceByNumber(Events(s.lost), model);
    NoShortfallIffFloorFree(Events(s.log[..s.taken]), model, false);
  }

  /** What is lost stays lost. */
  lemma LostStaysLost(w: World, actions: seq<Action>, more: seq<Action>)
    ensures Run(w, actions).lost <= Run(w, actions + more).lost
  {
    var s0 := Run(w, actions);
    forall s: System, a | s0.lost <= s.lost ensures s0.lost <= Stepper(w)(s, a).lost {
      StepKeepsLost(w, s, a);
    }
    RunInvariant(Stepper(w), s0, more, (s: System) => s0.lost <= s.lost);
    RunConcat(Stepper(w), Quiescent, actions, more);
  }

  lemma StepKeepsLost(w: World, s: System, a: Action)
    ensures s.lost <= Step(w, s, a).lost
  {
  }

  // ---------- runs that lose events ----------

  /** Streams 0 to n - 1 each receive the headers and the body of a request. */
  function Requests(n: nat, body: Bytes): seq<Action> {
    if n == 0 then [] else
      Requests(n - 1, body) + [HeadersOf(n - 1)] + [BodyOf(n - 1, body)]
  }

  /** In this world every request fires its event. */
  function PlainWorld(codec: Codec, cycle: CycleState): World {
    World(Responses.Fixed(codec, EmptyProfile), (id: nat) => cycle)
  }

  lemma PlainRequestFires(codec: Codec, cycle: CycleState, id: nat, body: Bytes)
    requires codec.decode(body).Some?
    ensures var w := PlainWorld(codec, cycle);
            && Fired(w, id, []) == []
            && Fired(w, id, [RequestHeaders([], [], false)]) == []
            && |Fired(w, id, [RequestHeaders([], [], false), RequestBody(body, true)])| == 1
  {
    var w := PlainWorld(codec, cycle);
    var h, b := RequestHeaders([], [], false), RequestBody(body, true);
    var t0 := Start(w.cycles(id));
    var t1 := Deliver(w.server, t0, h);
    assert [h, b][1..] == [b] && [h][1..] == [] && [b][1..] == [];
    assert [] + body == body;
    Responses.FixedRequest(codec, EmptyProfile, t1.state.ctx, body);
    assert DeliverAll(w.server, t1, []) == t1;
    assert DeliverAll(w.server, t1, [b]) == Deliver(w.server, t1, b);
  }

  /** The first message of a new stream, which fires nothing. */
  lemma NewStream(codec: Codec, cycle: CycleState, s: System, id: nat, body: Bytes)
    requires codec.decode(body).Some? && id !in s.messages
    ensures Step(PlainWorld(codec, cycle), s, Receive(id, RequestHeaders([], [], false))) ==
            s.(messages := s.messages[id := [RequestHeaders([], [], false)]])
  {
    var h := RequestHeaders([], [], false);
    PlainRequestFires(codec, cycle, id, body);
    assert [] + [h] == [h];
    assert [h][1..] == [];
  }

  lemma NotifySizes(s: System, e: Entry)
    ensures var s' := Notify(s, e);
            && s'.taken == s.taken && s'.messages == s.messages
            && |s'.log| == (if |s.log| - s.taken < EventBus.DEFAULT_BUFFER_SIZE then |s.log| + 1 else |s.log|)
            && |s'.log| + |s'.lost| == |s.log| + |s.lost| + 1
  {
  }

  /** Its body, which fires one event. */
  lemma NewRequest(codec: Codec, cycle: CycleState, s: System, id: nat, body: Bytes)
    requires codec.decode(body).Some? && id in s.messages && s.messages[id] == [RequestHeaders([], [], false)]
    ensures var s' := Step(PlainWorld(codec, cycle), s, Receive(id, RequestBody(body, true)));
            && s'.taken == s.taken && s'.messages.Keys == s.messages.Keys
            && |s'.log| == (if |s.log| - s.taken < EventBus.DEFAULT_BUFFER_SIZE then |s.log| + 1 else |s.log|)
            && |s'.log| + |s'.lost| == |s.log| + |s.lost| + 1
  {
    var h, b := RequestHeaders([], [], false), RequestBody(body, true);
    PlainRequestFires(codec, cycle, id, body);
    assert [h] + [b] == [h, b];
    assert [h, b][1..] == [b] && [b][1..] == [];
    assert AdvanceAll(RequestOpen, [b]) == Some(RequestClosed(true));
    var e := NextEvent(PlainWorld(codec, cycle), id, [h], b);
    NotifySizes(s.(messages := s.messages[id := [h, b]]), Entry(id, e.value));
  }

  ghost predicate PiledUp(s: System, n: nat) {
    && s.taken == 0 && (forall id :: id in s.messages ==> id < n)
    && |s.log| == (if n < EventBus.DEFAULT_BUFFER_SIZE then n else EventBus.DEFAULT_BUFFER_SIZE)
    && |s.log| + |s.lost| == n
  }

  lemma OneMoreRequest(codec: Codec, cycle: CycleState, s: System, n: nat, body: Bytes)
    requires codec.decode(body).Some? && PiledUp(s, n)
    ensures var w := PlainWorld(codec, cycle);
            PiledUp(Step(w, Step(w, s, Receive(n, RequestHeaders([], [], false))), Receive(n, RequestBody(body, true))), n + 1)
  {
    NewStream(codec, cycle, s, n, body);
    NewRequest(codec, cycle, s.(messages := s.messages[n := [RequestHeaders([], [], false)]]), n, body);
  }

  function HeadersOf(n: nat): Action { Receive(n, RequestHeaders([], [], false)) }
  function BodyOf(n: nat, body: Bytes): Action { Receive(n, RequestBody(body, true)) }

  lemma {:induction false} RequestsPileUp(step: (System, Action) -> System, n: nat, body: Bytes)
    requires forall s, k: nat :: PiledUp(s, k) ==> PiledUp(step(step(s, HeadersOf(k)), BodyOf(k, body)), k + 1)
    ensures PiledUp(RunOf(step, Quiescent, Requests(n, body)), n)
  {
    if n > 0 {
      var before := Requests(n - 1, body);
      RequestsPileUp(step, n - 1, body);
      RunSnoc(step, Quiescent, before, HeadersOf(n - 1));
      RunSnoc(step, Quiescent, before + [HeadersOf(n - 1)], BodyOf(n - 1, body));
    }
  }

  /** Losses happen: while the event loop does not come to a dispatch, the buffer takes in its size of request
      events and loses every further one. */
  lemma BufferOverflows(codec: Codec, cycle: CycleState, n: nat, body: Bytes)
    requires codec.decode(body).Some?
    ensures |Run(PlainWorld(codec, cycle), Requests(n, body)).lost| ==
            if n <= EventBus.DEFAULT_BUFFER_SIZE then 0 else n - EventBus.DEFAULT_BUFFER_SIZE
  {
    var w := PlainWorld(codec, cycle);
    forall s, k: nat | PiledUp(s, k)
      ensures PiledUp(Stepper(w)(Stepper(w)(s, HeadersOf(k)), BodyOf(k, body)), k + 1)
    {
      OneMoreRequest(codec, cycle, s, k, body);
    }
    RequestsPileUp(Stepper(w), n, body);
  }

  // ---------- what is published ----------

  /** Action i dispatches an event of the model. */
  ghost predicate Touches(w: World, actions: seq<Action>, i: nat, model: string) {
    && i < |actions| && actions[i] == Dispatch
    && var s := Run(w, actions[..i]);
    && s.taken < |s.log| && ModelOf(s.log[s.taken].event.request) == model
  }

  /** No action from i on deletes the model. */
  ghost predicate KeptFrom(actions: seq<Action>, i: nat, model: string) {
    forall j :: i <= j < |actions| ==> actions[j] != Lose(model)
  }

  /** An event of the model has been dispatched after the model was last deleted. */
  ghost predicate Fresh(w: World, actions: seq<Action>, model: string) {
    exists i: nat :: Touches(w, actions, i, model) && KeptFrom(actions, i, model)
  }

  lemma TouchesFront(w: World, front: seq<Action>, last: Action, i: nat, model: string)
    requires i < |front|
    ensures Touches(w, front + [last], i, model) <==> Touches(w, front, i, model)
    ensures KeptFrom(front + [last], i, model) <==> KeptFrom(front, i, model) && last != Lose(model)
  {
    var all := front + [last];
    assert all[..i] == front[..i] && all[i] == front[i];
    if KeptFrom(all, i, model) {
      assert all[|front|] == last;
      forall j | i <= j < |front| ensures front[j] != Lose(model) {
        assert all[j] == front[j];
      }
    }
  }

  lemma TouchesLast(w: World, front: seq<Action>, last: Action, model: string)
    ensures KeptFrom(front + [last], |front|, model) <==> last != Lose(model)
    ensures var s := Run(w, front);
            Touches(w, front + [last], |front|, model) <==>
            last == Dispatch && s.taken < |s.log| && ModelOf(s.log[s.taken].event.request) == model
  {
    var all := front + [last];
    assert all[..|front|] == front && all[|front|] == last;
  }

  lemma FreshSnoc(w: World, front: seq<Action>, last: Action, model: string)
    ensures var s := Run(w, front);
            Fresh(w, front + [last], model) <==>
            || (Fresh(w, front, model) && last != Lose(model))
            || (last == Dispatch && s.taken < |s.log| && ModelOf(s.log[s.taken].event.request) == model)
  {
    var all := front + [last];
    TouchesLast(w, front, last, model);
    if Fresh(w, all, model) {
      var i: nat :| Touches(w, all, i, model) && KeptFrom(all, i, model);
      if i < |front| {
        TouchesFront(w, front, last, i, model);
      }
    }
    if Fresh(w, front, model) && last != Lose(model) {
      var i: nat :| Touches(w, front, i, model) && KeptFrom(front, i, model);
      TouchesFront(w, front, last, i, model);
    }
  }

  lemma StepPublishes(w: World, s: System, a: Action, model: string)
    requires model != "" && (model in s.published ==> s.published[model] == CountOf(s.counters, model))
    ensures var s' := Step(w, s, a);
            && (model in s'.published <==>
                match a
                case Dispatch =>
                  model in s.published || (s.taken < |s.log| && ModelOf(s.log[s.taken].event.request) == model)
                case Lose(lost) => lost != model && model in s.published
                case Receive(_, _) => model in s.published)
            && (model in s'.published ==> s'.published[model] == CountOf(s'.counters, model))
  {
  }

  /** A model's published count is there exactly when it was written since the model was last deleted, and is
      then the counter. */
  lemma {:induction false} PublishedIffFresh(w: World, actions: seq<Action>, model: string)
    requires model != ""
    ensures var s := Run(w, actions);
            && (model in s.published <==> Fresh(w, actions, model))
            && (model in s.published ==> s.published[model] == CountOf(s.counters, model))
  {
    if actions != [] {
      var front, last := actions[..|actions| - 1], actions[|actions| - 1];
      assert actions == front + [last];
      PublishedIffFresh(w, front, model);
      FreshSnoc(w, front, last, model);
      StepPublishes(w, Run(w, front), last, model);
    }
  }

  /** So a reader, who takes a missing count for zero, sees the counter exactly when it is fresh or zero. */
  lemma ReadersSeeCounterIff(w: World, actions: seq<Action>, model: string)
    requires model != ""
    ensures var s := Run(w, actions);
            CountOf(s.published, model) == CountOf(s.counters, model) <==>
            Fresh(w, actions, model) || CountOf(s.counters, model) == Count(0, 0)
  {
    PublishedIffFresh(w, actions, model);
  }

  /** A negative max_tokens makes the floor take effect and leaves tokens behind when all is quiet again. */
  lemma NegativeTokensLeak(r: Message, q: Message)
    requires ModelOf(r) == ModelOf(q) == "m" && TokensOf(r) == -5 && TokensOf(q) == 3
    ensures var events := [RequestEvent(r), RequestEvent(q), ResponseEvent(q, q), ResponseEvent(r, r)];
            CountOf(AbsorbAll(map[], events), "m") == Count(0, 5)
  {
    var events := [RequestEvent(r), RequestEvent(q), ResponseEvent(q, q), ResponseEvent(r, r)];
    var c1 := Absorb(map[], events[0]);
    var c2 := Absorb(c1, events[1]);
    var c3 := Absorb(c2, events[2]);
    var c4 := Absorb(c3, events[3]);
    assert AbsorbAll(map[], events[..1]) == Absorb(AbsorbAll(map[], events[..1][..0]), events[0]);
    assert events[..2][..1] == events[..1] && events[..3][..2] == events[..2] && events[..4][..3] == events[..3];
    assert AbsorbAll(map[], events[..2]) == c2;
    assert AbsorbAll(map[], events[..3]) == c3;
    assert CountOf(c2, "m") == Count(2, -2) && CountOf(c3, "m") == Count(1, 0) && CountOf(c4, "m") == Count(0, 5);
    assert events[..4] == events;
  }
}
