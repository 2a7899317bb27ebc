/** Loaded lists against the file: which reference each plugin of a loaded configuration comes from. */
module ConfigContents {
  import opened Common
  import opened Framework
  import opened Handlers
  import opened Lifecycle
  import opened Selector
  import opened ConfigLoader
  import opened Listings
  import Protocol

  // ---------- what a reference asks for, and what answers it ----------

  ghost function WantsRequest(h: Handle): Ref -> bool { (r: Ref) => r.name in h && h[r.name].request.Some? }
  ghost function IsRequest(h: Handle): (Processor, Ref) -> bool {
    (p: Processor, r: Ref) => r.name in h && h[r.name].request == Some(p)
  }

  ghost function WantsSelector(h: Handle): Ref -> bool {
    (r: Ref) => r.name in h && h[r.name].request.Some? && h[r.name].modelSelector
  }
  ghost function IsSelector(h: Handle): (string, Ref) -> bool { (s: string, r: Ref) => s == r.name }

  ghost function WantsElement(h: Handle): Ref -> bool {
    (r: Ref) => r.name in h && h[r.name].request.None? && (h[r.name].selection.scorer.Some? ==> r.weight.Some?)
  }
  ghost function IsElement(h: Handle): (Element, Ref) -> bool {
    (e: Element, r: Ref) =>
      && r.name in h && e.roles == h[r.name].selection
      && (if e.roles.scorer.Some? then e.Weighted? && Some(e.scorer) == e.roles.scorer && Some(e.weight) == r.weight
          else e.Bare?)
  }

  ghost function WantsResponse(h: Handle): Ref -> bool { (r: Ref) => r.name in h && h[r.name].response.Some? }
  ghost function IsResponse(h: Handle): (Processor, Ref) -> bool {
    (p: Processor, r: Ref) => r.name in h && h[r.name].response == Some(p)
  }

  ghost function WantsChunk(h: Handle): Ref -> bool {
    (r: Ref) => r.name in h && h[r.name].response.None? && h[r.name].chunk.Some?
  }
  ghost function IsChunk(h: Handle): (ChunkProcessor, Ref) -> bool {
    (p: ChunkProcessor, r: Ref) => r.name in h && h[r.name].chunk == Some(p)
  }

  ghost function WantsHeaders(h: Handle): Ref -> bool { (r: Ref) => r.name in h && h[r.name].headers.Some? }
  ghost function IsHeaders(h: Handle): (Processor, Ref) -> bool {
    (p: Processor, r: Ref) => r.name in h && h[r.name].headers == Some(p)
  }

  // ---------- collecting mirrors the references ----------

  ghost predicate Answers<T>(
    h: Handle, r: Ref, f: (string, Plugin, Option<real>) -> seq<T>, wanted: Ref -> bool, standsFor: (T, Ref) -> bool)
  {
    var made := if r.name in h then f(r.name, h[r.name], r.weight) else [];
    if wanted(r) then |made| == 1 && standsFor(made[0], r) else made == []
  }

  lemma {:induction false} CollectMirrors<T>(
    h: Handle, refs: seq<Ref>, f: (string, Plugin, Option<real>) -> seq<T>, wanted: Ref -> bool,
    standsFor: (T, Ref) -> bool)
    requires forall r :: Answers(h, r, f, wanted, standsFor)
    ensures Mirrors(refs, wanted, standsFor, Collect(h, refs, f))
  {
    if refs == [] {
      MirrorsNothing(wanted, standsFor);
    } else {
      var front, r := refs[..|refs| - 1], refs[|refs| - 1];
      CollectMirrors(h, front, f, wanted, standsFor);
      assert Answers(h, r, f, wanted, standsFor);
      MirrorsSnoc(front, r, wanted, standsFor, Collect(h, front, f),
                  if r.name in h then f(r.name, h[r.name], r.weight) else []);
      assert refs == front + [r];
    }
  }

  /** The lists made of a profile's request references. */
  ghost predicate RequestsMirrored(h: Handle, refs: seq<Ref>, plugins: seq<Processor>, b: Built) {
    && Mirrors(refs, WantsRequest(h), IsRequest(h), plugins)
    && Mirrors(refs, WantsElement(h), IsElement(h), b.elements)
    && Mirrors(refs, WantsSelector(h), IsSelector(h), b.selectors)
  }

  ghost predicate ResponsesMirrored(h: Handle, refs: seq<Ref>, p: Profile) {
    && Mirrors(refs, WantsResponse(h), IsResponse(h), p.responsePlugins)
    && Mirrors(refs, WantsChunk(h), IsChunk(h), p.chunkProcessors)
  }

  lemma ElementAnswers(h: Handle, r: Ref)
    ensures Answers(h, r, AsElement, WantsElement(h), IsElement(h))
  {
  }

  lemma RequestAnswers(h: Handle, r: Ref)
    ensures Answers(h, r, AsRequest, WantsRequest(h), IsRequest(h))
    ensures Answers(h, r, AsSelector, WantsSelector(h), IsSelector(h))
  {
  }

  lemma ElementsAreMirrored(h: Handle, refs: seq<Ref>)
    ensures Mirrors(refs, WantsElement(h), IsElement(h), Collect(h, refs, AsElement))
  {
    forall r ensures Answers(h, r, AsElement, WantsElement(h), IsElement(h)) {
      ElementAnswers(h, r);
    }
    CollectMirrors(h, refs, AsElement, WantsElement(h), IsElement(h));
  }

  lemma RequestsAreMirrored(h: Handle, refs: seq<Ref>)
    ensures Mirrors(refs, WantsRequest(h), IsRequest(h), Collect(h, refs, AsRequest))
    ensures Mirrors(refs, WantsSelector(h), IsSelector(h), Collect(h, refs, AsSelector))
  {
    forall r
      ensures Answers(h, r, AsRequest, WantsRequest(h), IsRequest(h))
      ensures Answers(h, r, AsSelector, WantsSelector(h), IsSelector(h))
    {
      RequestAnswers(h, r);
    }
    CollectMirrors(h, refs, AsRequest, WantsRequest(h), IsRequest(h));
    CollectMirrors(h, refs, AsSelector, WantsSelector(h), IsSelector(h));
  }

  lemma ResponseAnswers(h: Handle, r: Ref)
    ensures Answers(h, r, AsResponse, WantsResponse(h), IsResponse(h))
    ensures Answers(h, r, AsChunk, WantsChunk(h), IsChunk(h))
    ensures Answers(h, r, AsHeaders, WantsHeaders(h), IsHeaders(h))
  {
  }

  lemma ResponsesAreMirrored(h: Handle, refs: seq<Ref>)
    ensures Mirrors(refs, WantsResponse(h), IsResponse(h), Collect(h, refs, AsResponse))
    ensures Mirrors(refs, WantsChunk(h), IsChunk(h), Collect(h, refs, AsChunk))
    ensures Mirrors(refs, WantsHeaders(h), IsHeaders(h), Collect(h, refs, AsHeaders))
  {
    forall r
      ensures Answers(h, r, AsResponse, WantsResponse(h), IsResponse(h))
      ensures Answers(h, r, AsChunk, WantsChunk(h), IsChunk(h))
      ensures Answers(h, r, AsHeaders, WantsHeaders(h), IsHeaders(h))
    {
      ResponseAnswers(h, r);
    }
    CollectMirrors(h, refs, AsResponse, WantsResponse(h), IsResponse(h));
    CollectMirrors(h, refs, AsChunk, WantsChunk(h), IsChunk(h));
    CollectMirrors(h, refs, AsHeaders, WantsHeaders(h), IsHeaders(h));
  }

  ghost predicate AnyWanted(refs: seq<Ref>, wanted: Ref -> bool) { exists i :: 0 <= i < |refs| && wanted(refs[i]) }

  lemma NonEmptyIffWanted<T>(refs: seq<Ref>, wanted: Ref -> bool, standsFor: (T, Ref) -> bool, list: seq<T>)
    requires Mirrors(refs, wanted, standsFor, list)
    ensures list != [] <==> AnyWanted(refs, wanted)
  {
    var at: seq<int> :| Places(refs, wanted, at) && Stand(refs, at, standsFor, list);
    if list != [] {
      assert at[0] in at && wanted(refs[at[0]]);
    }
  }

  /** Every list of a loaded profile holds one plugin for each reference of the last profile of its name in the file
      that asks for one, in file order; and it buffers exactly when one of them, or a post-processor, is there for
      whole bodies. */
  lemma ProfileMirrorsFile(h: Handle, raw: RawConfig, h': Handle, picker: string, c: Loaded, name: string)
    returns (i: nat)
    requires Accepted(h, raw, h', picker, c) && name in c.profiles
    ensures LastNamed(raw.profiles, i) && raw.profiles[i].name == name && raw.profiles[i].plugins.Some?
    ensures var b, refs := c.profiles[name], raw.profiles[i].plugins.value;
            && RequestsMirrored(h', refs.request, b.profile.requestPlugins, b)
            && ResponsesMirrored(h', refs.response, b.profile)
            && (b.profile.needsResponseBuffering <==>
                AnyWanted(refs.response, WantsResponse(h')) || AnyWanted(raw.postProcessing, WantsResponse(h')))
  {
    i :| ComesFrom(h', raw.profiles, c.postProcessors, i, name, c.profiles[name]);
    var refs, profile := raw.profiles[i].plugins.value, c.profiles[name].profile;
    RequestsAreMirrored(h', refs.request);
    ElementsAreMirrored(h', refs.request);
    ResponsesAreMirrored(h', refs.response);
    ResponsesAreMirrored(h', raw.postProcessing);
    NonEmptyIffWanted(refs.response, WantsResponse(h'), IsResponse(h'), profile.responsePlugins);
    NonEmptyIffWanted(raw.postProcessing, WantsResponse(h'), IsResponse(h'), c.postProcessors);
  }

  /** The same for the processors around the profiles. */
  lemma ProcessorsMirrorFile(h: Handle, raw: RawConfig, h': Handle, picker: string, c: Loaded)
    requires Accepted(h, raw, h', picker, c)
    ensures Mirrors(raw.preProcessing, WantsRequest(h'), IsRequest(h'), c.preProcessors)
    ensures Mirrors(raw.postProcessing, WantsResponse(h'), IsResponse(h'), c.postProcessors)
    ensures Mirrors(raw.postProcessing, WantsHeaders(h'), IsHeaders(h'), c.headersPostProcessors)
  {
    RequestsAreMirrored(h', raw.preProcessing);
    ResponsesAreMirrored(h', raw.postProcessing);
  }

  /** From the configuration file to the stream: whatever is accepted, once the response to a request with a body
      ends and parses, one plugin for each response reference of the picked profile that names a whole-body
      processor, and then one for each such post-processor, have run, once each, in file order, up to the first
      failure. */
  lemma AcceptedConfigsSkipNoPlugin(
    h: Handle, raw: RawConfig, h': Handle, picker: string, c: Loaded, server: Server,
    cycle: CycleState, front: seq<In>, last: Bytes, more: seq<In>)
    returns (i: nat, body: seq<Processor>, post: seq<Processor>)
    requires Accepted(h, raw, h', picker, c) && Serves(server, c)
    requires c.picker.Some? ==> PicksGiven(c.picker.value)
    requires Protocol.AdvanceAll(Protocol.Opening, front) == Some(Protocol.ResponseOpen(true))
    requires DeliverAll(server, Start(cycle), front).state.status == Running
    ensures LastNamed(raw.profiles, i) && raw.profiles[i].plugins.Some?
    ensures Mirrors(raw.profiles[i].plugins.value.response, WantsResponse(h'), IsResponse(h'), body)
    ensures Mirrors(raw.postProcessing, WantsResponse(h'), IsResponse(h'), post)
    ensures var t0 := DeliverAll(server, Start(cycle), front);
            var parsed := ParseResponse(server.codec, t0.state.ctx.response.body, UpstreamBody(front) + last);
            RanAll(DeliverAll(server, Start(cycle), front + [ResponseBody(last, true)] + more), body + post, parsed)
  {
    AcceptedServersAreSound(h, raw, h', picker, c, server);
    NoResponsePluginIsSkipped(server, cycle, front, last, more);
    var profile := DeliverAll(server, Start(cycle), front).state.ctx.profile;
    var name :| name in server.profiles && server.profiles[name] == profile;
    i := ProfileMirrorsFile(h, raw, h', picker, c, name);
    ProcessorsMirrorFile(h, raw, h', picker, c);
    body, post := profile.responsePlugins, c.postProcessors;
  }
}
