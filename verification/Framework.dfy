/** The plugin interfaces of the request and response pipelines. */
module Framework {
  import opened Common
  import opened Json
  import opened Messages

  /** Data plugins hand to each other during one stream; its initial value also stands for whatever
      outside information (clock, stores, random numbers) the plugins consult. */
  type CycleState = map<string, Value>

  datatype ErrorCode =
    | BadRequest | Unauthorized | Forbidden | NotFound | ResourceExhausted | Internal | ServiceUnavailable
    | ModelServerError | Unknown
    | NilDereference   // not an error value: the goroutine panics

  datatype Error = Error(code: ErrorCode, msg: string)

  /** What a plugin call did to the message, to the cycle state, and whether it failed. */
  datatype Outcome = Outcome(ops: seq<Op>, cycle: CycleState, error: Option<Error>)

  /** A RequestProcessor, ResponseProcessor or ResponseHeadersProcessor. */
  datatype Processor = Processor(name: string, run: (Message, CycleState) -> Outcome)

  /** `chunk` is the argument of the plugin's last SetChunk call, if it made one. */
  datatype ChunkOutcome = ChunkOutcome(ops: seq<Op>, chunk: Option<Bytes>, cycle: CycleState, error: Option<Error>)

  /** A ResponseChunkProcessor: it sees the response, the current chunk and whether the chunk is final. */
  datatype ChunkProcessor = ChunkProcessor(name: string, run: (Message, Bytes, CycleState, bool) -> ChunkOutcome)

  datatype Profile = Profile(
    requestPlugins: seq<Processor>,
    responsePlugins: seq<Processor>,
    chunkProcessors: seq<ChunkProcessor>,
    needsResponseBuffering: bool)

  const EmptyProfile := Profile([], [], [], false)

  datatype Pick = Pick(profile: Option<Profile>, cycle: CycleState)
  type ProfilePicker = (Message, CycleState, map<string, Profile>) -> Pick

  /** One plugin call: which plugin, and the body it was given. */
  datatype Invocation = Invocation(name: string, body: Object)

  datatype PipelineResult = PipelineResult(
    message: Message,
    cycle: CycleState,
    ran: seq<Invocation>,
    error: Option<Error>)

  /** Plugins in order, each seeing its predecessors' changes, up to the first error. */
  function RunProcessors(plugins: seq<Processor>, m: Message, cycle: CycleState): PipelineResult
    decreases |plugins|
  {
    if plugins == [] then PipelineResult(m, cycle, [], None) else
      var o := plugins[0].run(m, cycle);
      var m' := ApplyAll(m, o.ops);
      var call := Invocation(plugins[0].name, m.body);
      if o.error.Some? then PipelineResult(m', o.cycle, [call], o.error) else
        var rest := RunProcessors(plugins[1..], m', o.cycle);
        rest.(ran := [call] + rest.ran)
  }

  /** The calls made are the leading plugins of the list, once each and in list order. */
  ghost predicate CalledInOrder(ran: seq<Invocation>, plugins: seq<Processor>) {
    && |ran| <= |plugins|
    && forall i :: 0 <= i < |ran| ==> ran[i].name == plugins[i].name
  }

  /** Each plugin runs once, in order, until one fails; the first one sees the body as given. */
  lemma {:induction false} PluginsRunInOrder(plugins: seq<Processor>, m: Message, cycle: CycleState)
    ensures var r := RunProcessors(plugins, m, cycle);
            && CalledInOrder(r.ran, plugins)
            && (r.error.None? ==> |r.ran| == |plugins|)
            && (r.error.Some? ==> r.ran != [])
            && (r.ran != [] ==> r.ran[0].body == m.body)
    decreases |plugins|
  {
    if plugins != [] {
      var o := plugins[0].run(m, cycle);
      PluginsRunInOrder(plugins[1..], ApplyAll(m, o.ops), o.cycle);
    }
  }

  /** Running two plugin lists one after the other is running their concatenation. */
  lemma {:induction false} RunProcessorsOfConcat(a: seq<Processor>, b: seq<Processor>, m: Message, cycle: CycleState)
    ensures var first := RunProcessors(a, m, cycle);
            var second := RunProcessors(b, first.message, first.cycle);
            RunProcessors(a + b, m, cycle) ==
            if first.error.Some? then first else second.(ran := first.ran + second.ran)
    decreases |a|
  {
    if a == [] {
      assert a + b == b;
    } else {
      assert (a + b)[1..] == a[1..] + b;
      var o := a[0].run(m, cycle);
      RunProcessorsOfConcat(a[1..], b, ApplyAll(m, o.ops), o.cycle);
    }
  }

  /** Whatever the plugins do, the header delta stays faithful to the original headers. */
  lemma {:induction false} PluginsKeepDeltaFaithful(original: Headers, plugins: seq<Processor>, m: Message, cycle: CycleState)
    requires Faithful(original, m)
    ensures Faithful(original, RunProcessors(plugins, m, cycle).message)
    decreases |plugins|
  {
    if plugins != [] {
      var o := plugins[0].run(m, cycle);
      DeltaIsFaithful(original, m, o.ops);
      if o.error.None? {
        PluginsKeepDeltaFaithful(original, plugins[1..], ApplyAll(m, o.ops), o.cycle);
      }
    }
  }

  /** A pipeline that leaves the body flag down left the body alone. */
  lemma {:induction false} PluginsWithoutMutation(plugins: seq<Processor>, m: Message, cycle: CycleState)
    ensures var r := RunProcessors(plugins, m, cycle).message;
            !r.bodyMutated ==> !m.bodyMutated && r.body == m.body
    decreases |plugins|
  {
    if plugins != [] {
      var o := plugins[0].run(m, cycle);
      UnmutatedBodyIsOriginal(m, o.ops);
      if o.error.None? {
        PluginsWithoutMutation(plugins[1..], ApplyAll(m, o.ops), o.cycle);
      }
    }
  }

  datatype ChunkPipelineResult = ChunkPipelineResult(
    message: Message,
    chunk: Bytes,
    mutated: bool,
    cycle: CycleState,
    error: Option<Error>)

  function RunChunkProcessors(
    plugins: seq<ChunkProcessor>, m: Message, chunk: Bytes, mutated: bool, cycle: CycleState, isFinal: bool)
    : ChunkPipelineResult
    decreases |plugins|
  {
    if plugins == [] then ChunkPipelineResult(m, chunk, mutated, cycle, None) else
      var o := plugins[0].run(m, chunk, cycle, isFinal);
      var m' := ApplyAll(m, o.ops);
      var chunk' := if o.chunk.Some? then o.chunk.value else chunk;
      var mutated' := mutated || o.chunk.Some?;
      if o.error.Some? then ChunkPipelineResult(m', chunk', mutated', o.cycle, o.error)
      else RunChunkProcessors(plugins[1..], m', chunk', mutated', o.cycle, isFinal)
  }

  // ---------- what a run of plugins comes to, call by call ----------

  /** What one plugin leaves for the next. */
  datatype Point = Point(message: Message, cycle: CycleState)

  /** One call: the plugin is given one point, leaves the other, and returns this. */
  ghost predicate Calls(p: Processor, from: Point, to: Point, error: Option<Error>) {
    var o := p.run(from.message, from.cycle);
    to == Point(ApplyAll(from.message, o.ops), o.cycle) && error == o.error
  }

  /** Plugin i is given point i and leaves point i + 1. */
  ghost predicate Chain(plugins: seq<Processor>, points: seq<Point>) {
    && |points| == |plugins| + 1
    && forall i :: 0 <= i < |plugins| ==> Calls(plugins[i], points[i], points[i + 1], None)
  }

  /** All plugins, called in list order without a failure, lead from one point to the other. */
  ghost predicate Leads(plugins: seq<Processor>, from: Point, to: Point) {
    exists points :: Chain(plugins, points) && points[0] == from && points[|plugins|] == to
  }

  /** Some plugin is reached and fails. */
  ghost predicate Breaks(plugins: seq<Processor>, from: Point, to: Point, e: Error) {
    exists k, at :: 0 <= k < |plugins| && Leads(plugins[..k], from, at) && Calls(plugins[k], at, to, Some(e))
  }

  lemma LeadsNowhere(from: Point, to: Point)
    ensures Leads([], from, to) <==> from == to
  {
    assert Chain([], [from]);
  }

  /** A chain is its first call and the chain of the rest. */
  lemma LeadsFront(plugins: seq<Processor>, from: Point, mid: Point, to: Point)
    requires plugins != [] && Calls(plugins[0], from, mid, None)
    ensures Leads(plugins, from, to) <==> Leads(plugins[1..], mid, to)
  {
    if Leads(plugins[1..], mid, to) {
      var points :| Chain(plugins[1..], points) && points[0] == mid && points[|plugins| - 1] == to;
      var all := [from] + points;
      forall i | 0 <= i < |plugins| ensures Calls(plugins[i], all[i], all[i + 1], None) {
        assert i > 0 ==> plugins[i] == plugins[1..][i - 1];
      }
      assert Chain(plugins, all);
    }
    if Leads(plugins, from, to) {
      var points :| Chain(plugins, points) && points[0] == from && points[|plugins|] == to;
      FirstCall(plugins, points);
      assert Chain(plugins[1..], points[1..]);
    }
  }

  lemma FirstCall(plugins: seq<Processor>, points: seq<Point>)
    requires plugins != [] && Chain(plugins, points)
    ensures Calls(plugins[0], points[0], points[1], None)
  {
  }

  lemma FailedLeadsNowhere(plugins: seq<Processor>, from: Point, to: Point)
    requires plugins != [] && plugins[0].run(from.message, from.cycle).error.Some?
    ensures !Leads(plugins, from, to)
  {
    if Leads(plugins, from, to) {
      var points :| Chain(plugins, points) && points[0] == from && points[|plugins|] == to;
      FirstCall(plugins, points);
    }
  }

  /** Running a list of plugins succeeds with this outcome exactly when their calls lead there. */
  lemma {:induction false} RunIsChain(plugins: seq<Processor>, from: Point, to: Point)
    ensures var r := RunProcessors(plugins, from.message, from.cycle);
            r.error.None? && Point(r.message, r.cycle) == to <==> Leads(plugins, from, to)
    decreases |plugins|
  {
    if plugins == [] {
      LeadsNowhere(from, to);
    } else {
      var o := plugins[0].run(from.message, from.cycle);
      var mid := Point(ApplyAll(from.message, o.ops), o.cycle);
      if o.error.None? {
        LeadsFront(plugins, from, mid, to);
        RunIsChain(plugins[1..], mid, to);
      } else {
        FailedLeadsNowhere(plugins, from, to);
      }
    }
  }

  lemma BreaksAtFirst(plugins: seq<Processor>, from: Point, to: Point, e: Error)
    requires plugins != [] && plugins[0].run(from.message, from.cycle).error.Some?
    ensures Breaks(plugins, from, to, e) <==> Calls(plugins[0], from, to, Some(e))
  {
    LeadsNowhere(from, from);
    assert plugins[..0] == [];
    if k, at :| 0 <= k < |plugins| && Leads(plugins[..k], from, at) && Calls(plugins[k], at, to, Some(e)) {
      LeadsNowhere(from, at);
      if k > 0 {
        assert plugins[..k][0] == plugins[0];
        FailedLeadsNowhere(plugins[..k], from, at);
      }
    }
  }

  lemma BreaksLater(plugins: seq<Processor>, from: Point, mid: Point, to: Point, e: Error)
    requires plugins != [] && Calls(plugins[0], from, mid, None)
    ensures Breaks(plugins, from, to, e) <==> Breaks(plugins[1..], mid, to, e)
  {
    var rest := plugins[1..];
    assert plugins[..0] == [];
    forall at ensures Leads([], from, at) <==> from == at {
      LeadsNowhere(from, at);
    }
    if k, at :| 0 <= k < |rest| && Leads(rest[..k], mid, at) && Calls(rest[k], at, to, Some(e)) {
      assert plugins[..k + 1][1..] == rest[..k];
      LeadsFront(plugins[..k + 1], from, mid, at);
      assert plugins[k + 1] == rest[k];
    }
    if k, at :| 0 <= k < |plugins| && Leads(plugins[..k], from, at) && Calls(plugins[k], at, to, Some(e)) {
      if k > 0 {
        assert plugins[..k][1..] == rest[..k - 1];
        LeadsFront(plugins[..k], from, mid, at);
        assert rest[k - 1] == plugins[k];
      }
    }
  }

  /** It fails with this error exactly when some plugin is reached and returns it. */
  lemma {:induction false} RunFailsByCall(plugins: seq<Processor>, from: Point, to: Point, e: Error)
    ensures var r := RunProcessors(plugins, from.message, from.cycle);
            r.error == Some(e) && Point(r.message, r.cycle) == to <==> Breaks(plugins, from, to, e)
    decreases |plugins|
  {
    if plugins != [] {
      var o := plugins[0].run(from.message, from.cycle);
      var mid := Point(ApplyAll(from.message, o.ops), o.cycle);
      if o.error.None? {
        BreaksLater(plugins, from, mid, to, e);
        RunFailsByCall(plugins[1..], mid, to, e);
      } else {
        BreaksAtFirst(plugins, from, to, e);
      }
    }
  }

  // ---------- the same for chunk processors ----------

  datatype ChunkPoint = ChunkPoint(message: Message, chunk: Bytes, cycle: CycleState)

  /** A processor that sets no chunk leaves the one it was given. */
  ghost predicate ChunkCalls(p: ChunkProcessor, isFinal: bool, from: ChunkPoint, to: ChunkPoint, error: Option<Error>) {
    var o := p.run(from.message, from.chunk, from.cycle, isFinal);
    && to == ChunkPoint(ApplyAll(from.message, o.ops), if o.chunk.Some? then o.chunk.value else from.chunk, o.cycle)
    && error == o.error
  }

  ghost predicate ChunkChain(plugins: seq<ChunkProcessor>, isFinal: bool, points: seq<ChunkPoint>) {
    && |points| == |plugins| + 1
    && forall i :: 0 <= i < |plugins| ==> ChunkCalls(plugins[i], isFinal, points[i], points[i + 1], None)
  }

  ghost predicate ChunkLeads(plugins: seq<ChunkProcessor>, isFinal: bool, from: ChunkPoint, to: ChunkPoint) {
    exists points :: ChunkChain(plugins, isFinal, points) && points[0] == from && points[|plugins|] == to
  }

  ghost predicate ChunkBreaks(plugins: seq<ChunkProcessor>, isFinal: bool, from: ChunkPoint, e: Error) {
    exists k, at, to ::
      0 <= k < |plugins| && ChunkLeads(plugins[..k], isFinal, from, at) && ChunkCalls(plugins[k], isFinal, at, to, Some(e))
  }

  lemma ChunkLeadsNowhere(isFinal: bool, s: ChunkPoint)
    ensures ChunkLeads([], isFinal, s, s)
  {
    assert ChunkChain([], isFinal, [s]);
  }

  lemma ChunkLeadsOn(plugins: seq<ChunkProcessor>, isFinal: bool, from: ChunkPoint, mid: ChunkPoint, to: ChunkPoint)
    requires plugins != [] && ChunkCalls(plugins[0], isFinal, from, mid, None)
    requires ChunkLeads(plugins[1..], isFinal, mid, to)
    ensures ChunkLeads(plugins, isFinal, from, to)
  {
    var points :| ChunkChain(plugins[1..], isFinal, points) && points[0] == mid && points[|plugins| - 1] == to;
    var all := [from] + points;
    forall i | 0 <= i < |plugins| ensures ChunkCalls(plugins[i], isFinal, all[i], all[i + 1], None) {
      assert i > 0 ==> plugins[i] == plugins[1..][i - 1];
    }
    assert ChunkChain(plugins, isFinal, all);
  }

  lemma ChunkBreaksOn(plugins: seq<ChunkProcessor>, isFinal: bool, from: ChunkPoint, mid: ChunkPoint, e: Error)
    requires plugins != [] && ChunkCalls(plugins[0], isFinal, from, mid, None)
    requires ChunkBreaks(plugins[1..], isFinal, mid, e)
    ensures ChunkBreaks(plugins, isFinal, from, e)
  {
    var rest := plugins[1..];
    var k, at, to :|
      0 <= k < |rest| && ChunkLeads(rest[..k], isFinal, mid, at) && ChunkCalls(rest[k], isFinal, at, to, Some(e));
    assert plugins[..k + 1][1..] == rest[..k];
    ChunkLeadsOn(plugins[..k + 1], isFinal, from, mid, at);
    assert plugins[k + 1] == rest[k];
  }

  /** Every run of chunk processors is a chain of calls, to its end or to a failure. */
  lemma {:induction false} ChunkRunIsChain(
    plugins: seq<ChunkProcessor>, isFinal: bool, from: ChunkPoint, mutated: bool)
    ensures var r := RunChunkProcessors(plugins, from.message, from.chunk, mutated, from.cycle, isFinal);
            && (r.error.None? ==> ChunkLeads(plugins, isFinal, from, ChunkPoint(r.message, r.chunk, r.cycle)))
            && (r.error.Some? ==> ChunkBreaks(plugins, isFinal, from, r.error.value))
            && (mutated ==> r.mutated)
            && (!r.mutated ==> r.chunk == from.chunk)
    decreases |plugins|
  {
    if plugins == [] {
      ChunkLeadsNowhere(isFinal, from);
    } else {
      var o := plugins[0].run(from.message, from.chunk, from.cycle, isFinal);
      var mid := ChunkPoint(
        ApplyAll(from.message, o.ops), if o.chunk.Some? then o.chunk.value else from.chunk, o.cycle);
      if o.error.Some? {
        assert plugins[..0] == [];
        ChunkLeadsNowhere(isFinal, from);
        assert ChunkCalls(plugins[0], isFinal, from, mid, Some(o.error.value));
      } else {
        ChunkRunIsChain(plugins[1..], isFinal, mid, mutated || o.chunk.Some?);
        var r := RunChunkProcessors(plugins, from.message, from.chunk, mutated, from.cycle, isFinal);
        if r.error.None? {
          ChunkLeadsOn(plugins, isFinal, from, mid, ChunkPoint(r.message, r.chunk, r.cycle));
        } else {
          ChunkBreaksOn(plugins, isFinal, from, mid, r.error.value);
        }
      }
    }
  }
}
