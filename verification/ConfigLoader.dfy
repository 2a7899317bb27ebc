/** Assembly of profiles, post-processors and model-selector pipelines from a configuration. */
module ConfigLoader {
  import opened Common
  import opened Json
  import opened Messages
  import opened Framework
  import opened Handlers
  import opened Protocol
  import opened Lifecycle
  import opened Selector
  import opened ModelSelection
  import Ranking

  /** A plugin instance: the interfaces its type implements. */
  datatype Plugin = Plugin(
    request: Option<Processor>,
    response: Option<Processor>,
    chunk: Option<ChunkProcessor>,
    headers: Option<Processor>,
    selection: Roles,
    profilePicker: Option<ProfilePicker>,
    modelSelector: bool)

  /** The instances by name. */
  type Handle = map<string, Plugin>

  datatype Ref = Ref(name: string, weight: Option<real>)
  datatype RawPlugins = RawPlugins(request: seq<Ref>, response: seq<Ref>)
  datatype RawProfile = RawProfile(name: string, plugins: Option<RawPlugins>)

  /** The configuration file; an absent list of pre- or post-processors is an empty one. */
  datatype RawConfig = RawConfig(
    profilePicker: Option<string>,
    profiles: seq<RawProfile>,
    preProcessing: seq<Ref>,
    postProcessing: seq<Ref>)

  /** A profile with what belongs to its model selectors. */
  datatype Built = Built(profile: Profile, elements: seq<Element>, selectors: seq<string>)

  datatype Loaded = Loaded(
    picker: Option<ProfilePicker>,
    profiles: map<string, Built>,
    preProcessors: seq<Processor>,
    postProcessors: seq<Processor>,
    headersPostProcessors: seq<Processor>)

  // ---------- what a list of references stands for ----------

  function OptionToSeq<T>(o: Option<T>): seq<T> { if o.Some? then [o.value] else [] }

  /** Concatenates what f makes of each referenced plugin, in configuration order. */
  function Collect<T>(h: Handle, refs: seq<Ref>, f: (string, Plugin, Option<real>) -> seq<T>): seq<T> {
    if refs == [] then [] else
      var r := refs[|refs| - 1];
      Collect(h, refs[..|refs| - 1], f) + (if r.name in h then f(r.name, h[r.name], r.weight) else [])
  }

  function AsRequest(name: string, p: Plugin, w: Option<real>): seq<Processor> { OptionToSeq(p.request) }

  function AsSelector(name: string, p: Plugin, w: Option<real>): seq<string> {
    if p.request.Some? && p.modelSelector then [name] else []
  }

  /** A RequestProcessor is never taken for a selection plugin; a scorer is wrapped with its weight. */
  function AsElement(name: string, p: Plugin, w: Option<real>): seq<Element> {
    if p.request.Some? then []
    else if p.selection.scorer.Some? then
      (if w.Some? then [Weighted(p.selection.scorer.value, w.value, p.selection)] else [])
    else [Bare(p.selection)]
  }

  function AsResponse(name: string, p: Plugin, w: Option<real>): seq<Processor> { OptionToSeq(p.response) }

  /** A plugin that is both is taken for a whole-body processor. */
  function AsChunk(name: string, p: Plugin, w: Option<real>): seq<ChunkProcessor> {
    if p.response.Some? then [] else OptionToSeq(p.chunk)
  }

  function AsHeaders(name: string, p: Plugin, w: Option<real>): seq<Processor> { OptionToSeq(p.headers) }

  predicate CanSelect(r: Roles) { r.filter.Some? || r.scorer.Some? || r.picker.Some? }

  ghost predicate RequestRefOk(h: Handle, r: Ref) {
    && r.name in h
    && (h[r.name].request.Some? ||
        (CanSelect(h[r.name].selection) && (h[r.name].selection.scorer.Some? ==> r.weight.Some?)))
  }

  ghost predicate ResponseRefOk(h: Handle, r: Ref) {
    r.name in h && (h[r.name].response.Some? || h[r.name].chunk.Some?)
  }

  ghost predicate PreRefOk(h: Handle, r: Ref) { r.name in h && h[r.name].request.Some? }

  ghost predicate PostRefOk(h: Handle, r: Ref) {
    r.name in h && (h[r.name].response.Some? || h[r.name].headers.Some?)
  }

  ghost predicate All(h: Handle, refs: seq<Ref>, ok: (Handle, Ref) -> bool) {
    forall i :: 0 <= i < |refs| ==> ok(h, refs[i])
  }

  /** When a profile of the file is accepted: every reference fits its list, and the response list is
      homogeneous. */
  ghost predicate ProfileOk(h: Handle, raw: RawProfile) {
    && raw.name != ""
    && raw.plugins.Some?
    && (raw.plugins.value.request != [] || raw.plugins.value.response != [])
    && All(h, raw.plugins.value.request, RequestRefOk)
    && All(h, raw.plugins.value.response, ResponseRefOk)
    && (Collect(h, raw.plugins.value.response, AsResponse) == [] ||
        Collect(h, raw.plugins.value.response, AsChunk) == [])
  }

  /** The profile it becomes. */
  ghost function ProfileOf(h: Handle, raw: RawProfile): Built
    requires raw.plugins.Some?
  {
    var request, response := raw.plugins.value.request, raw.plugins.value.response;
    var body := Collect(h, response, AsResponse);
    Built(Profile(Collect(h, request, AsRequest), body, Collect(h, response, AsChunk), body != []),
          Collect(h, request, AsElement), Collect(h, request, AsSelector))
  }

  lemma CollectOne<T>(h: Handle, refs: seq<Ref>, i: nat, f: (string, Plugin, Option<real>) -> seq<T>)
    requires i < |refs| && refs[i].name in h
    ensures Collect(h, refs[..i + 1], f) == Collect(h, refs[..i], f) + f(refs[i].name, h[refs[i].name], refs[i].weight)
  {
    assert refs[..i + 1][..i] == refs[..i];
  }

  // ---------- the loops over references ----------

  method BuildRequestPlugins(h: Handle, refs: seq<Ref>)
    returns (ok: bool, plugins: seq<Processor>, elements: seq<Element>, selectors: seq<string>)
    ensures ok <==> All(h, refs, RequestRefOk)
    ensures ok ==> plugins == Collect(h, refs, AsRequest) && elements == Collect(h, refs, AsElement)
    ensures ok ==> selectors == Collect(h, refs, AsSelector)
  {
    plugins, elements, selectors := [], [], [];
    for i := 0 to |refs|
      invariant All(h, refs[..i], RequestRefOk)
      invariant plugins == Collect(h, refs[..i], AsRequest) && elements == Collect(h, refs[..i], AsElement)
      invariant selectors == Collect(h, refs[..i], AsSelector)
    {
      var r := refs[i];
      if r.name !in h {
        assert !RequestRefOk(h, refs[i]);
        return false, [], [], [];
      }
      var p := h[r.name];
      CollectOne(h, refs, i, AsRequest);
      CollectOne(h, refs, i, AsElement);
      CollectOne(h, refs, i, AsSelector);
      if p.request.Some? {
        plugins := plugins + [p.request.value];
        if p.modelSelector {
          selectors := selectors + [r.name];
        }
      } else {
        if !CanSelect(p.selection) || (p.selection.scorer.Some? && r.weight.None?) {
          assert !RequestRefOk(h, refs[i]);
          return false, [], [], [];
        }
        var e := if p.selection.scorer.Some?
          then Weighted(p.selection.scorer.value, r.weight.value, p.selection) else Bare(p.selection);
        elements := elements + [e];
      }
      AllOneMore(h, refs, i, RequestRefOk);
    }
    assert refs[..|refs|] == refs;
    ok := true;
  }

  lemma AllOneMore(h: Handle, refs: seq<Ref>, i: nat, ok: (Handle, Ref) -> bool)
    requires i < |refs| && All(h, refs[..i], ok) && ok(h, refs[i])
    ensures All(h, refs[..i + 1], ok)
  {
    assert refs[..i + 1] == refs[..i] + [refs[i]];
  }

  method BuildResponsePlugins(h: Handle, refs: seq<Ref>)
    returns (ok: bool, body: seq<Processor>, chunk: seq<ChunkProcessor>)
    ensures ok <==> All(h, refs, ResponseRefOk)
    ensures ok ==> body == Collect(h, refs, AsResponse) && chunk == Collect(h, refs, AsChunk)
  {
    body, chunk := [], [];
    for i := 0 to |refs|
      invariant All(h, refs[..i], ResponseRefOk)
      invariant body == Collect(h, refs[..i], AsResponse) && chunk == Collect(h, refs[..i], AsChunk)
    {
      var r := refs[i];
      if r.name !in h || (h[r.name].response.None? && h[r.name].chunk.None?) {
        assert !ResponseRefOk(h, refs[i]);
        return false, [], [];
      }
      CollectOne(h, refs, i, AsResponse);
      CollectOne(h, refs, i, AsChunk);
      if h[r.name].response.Some? {
        body := body + [h[r.name].response.value];
      } else {
        chunk := chunk + [h[r.name].chunk.value];
      }
    }
    assert refs[..|refs|] == refs;
    ok := true;
  }

  method BuildProfile(h: Handle, raw: RawProfile) returns (r: Option<Built>)
    ensures r.Some? <==> ProfileOk(h, raw)
    ensures r.Some? ==> r.value == ProfileOf(h, raw)
  {
    if raw.name == "" || raw.plugins.None? || (raw.plugins.value.request == [] && raw.plugins.value.response == []) {
      return None;
    }
    var ok, plugins, elements, selectors := BuildRequestPlugins(h, raw.plugins.value.request);
    if !ok { return None; }
    var ok', body, chunk := BuildResponsePlugins(h, raw.plugins.value.response);
    if !ok' || (|body| > 0 && |chunk| > 0) { return None; }
    r := Some(Built(Profile(plugins, body, chunk, |body| > 0), elements, selectors));
  }

  /** Profile i is the last with its name, so it is the one that stays in the map. */
  ghost predicate LastNamed(raws: seq<RawProfile>, i: nat) {
    i < |raws| && forall j :: i < j < |raws| ==> raws[j].name != raws[i].name
  }

  function Buffering(b: Built): Built { b.(profile := b.profile.(needsResponseBuffering := true)) }

  /** Entry `name` of the map comes from profile i of the file; whole-body post-processors, if there are any,
      have made it buffer. */
  ghost predicate ComesFrom(
    h: Handle, raws: seq<RawProfile>, postProcessors: seq<Processor>, i: nat, name: string, b: Built)
  {
    && LastNamed(raws, i) && raws[i].name == name && ProfileOk(h, raws[i])
    && (if postProcessors == [] then b == ProfileOf(h, raws[i])
        else b == Buffering(ProfileOf(h, raws[i])) && b.profile.chunkProcessors == [])
  }

  ghost predicate BuiltFrom(
    h: Handle, raws: seq<RawProfile>, postProcessors: seq<Processor>, profiles: map<string, Built>)
  {
    && AllIn(h, raws, profiles)
    && (forall name :: name in profiles ==> Traced(h, raws, postProcessors, name, profiles[name]))
  }

  ghost predicate AllIn(h: Handle, raws: seq<RawProfile>, profiles: map<string, Built>) {
    forall i :: 0 <= i < |raws| ==> ProfileOk(h, raws[i]) && raws[i].name in profiles
  }

  ghost predicate Traced(h: Handle, raws: seq<RawProfile>, postProcessors: seq<Processor>, name: string, b: Built) {
    exists i: nat :: ComesFrom(h, raws, postProcessors, i, name, b)
  }

  lemma ComesFromStill(h: Handle, raws: seq<RawProfile>, n: nat, i: nat, name: string, b: Built)
    requires n < |raws| && ComesFrom(h, raws[..n], [], i, name, b) && raws[n].name != name
    ensures ComesFrom(h, raws[..n + 1], [], i, name, b)
  {
    assert raws[..n + 1][i] == raws[..n][i];
  }

  lemma AllStillIn(h: Handle, raws: seq<RawProfile>, n: nat, profiles: map<string, Built>)
    requires n < |raws| && AllIn(h, raws[..n], profiles) && ProfileOk(h, raws[n])
    ensures AllIn(h, raws[..n + 1], profiles[raws[n].name := ProfileOf(h, raws[n])])
  {
    var before, after := raws[..n], raws[..n + 1];
    forall i | 0 <= i < n + 1 ensures after[i] == if i < n then before[i] else raws[n] {
    }
  }

  /** A name in the map after profile n has been added comes from profile n or from before. */
  lemma StillTraced(h: Handle, raws: seq<RawProfile>, n: nat, name: string, b: Built)
    requires n < |raws| && Traced(h, raws[..n], [], name, b) && raws[n].name != name
    ensures Traced(h, raws[..n + 1], [], name, b)
  {
    var i: nat :| ComesFrom(h, raws[..n], [], i, name, b);
    ComesFromStill(h, raws, n, i, name, b);
  }

  lemma NewlyTraced(h: Handle, raws: seq<RawProfile>, n: nat)
    requires n < |raws| && ProfileOk(h, raws[n])
    ensures Traced(h, raws[..n + 1], [], raws[n].name, ProfileOf(h, raws[n]))
  {
    assert ComesFrom(h, raws[..n + 1], [], n, raws[n].name, ProfileOf(h, raws[n]));
  }

  lemma BuiltOne(h: Handle, raws: seq<RawProfile>, n: nat, profiles: map<string, Built>)
    requires n < |raws| && BuiltFrom(h, raws[..n], [], profiles) && ProfileOk(h, raws[n])
    ensures BuiltFrom(h, raws[..n + 1], [], profiles[raws[n].name := ProfileOf(h, raws[n])])
  {
    var after, profiles' := raws[..n + 1], profiles[raws[n].name := ProfileOf(h, raws[n])];
    AllStillIn(h, raws, n, profiles);
    NewlyTraced(h, raws, n);
    forall name | name in profiles' ensures Traced(h, after, [], name, profiles'[name]) {
      if name != raws[n].name {
        StillTraced(h, raws, n, name, profiles[name]);
      }
    }
  }

  /** Accepted exactly when there is a profile and each is acceptable; later profiles replace earlier ones
      of the same name. */
  method BuildProfiles(h: Handle, raws: seq<RawProfile>) returns (r: Option<map<string, Built>>)
    ensures r.Some? <==> raws != [] && forall i :: 0 <= i < |raws| ==> ProfileOk(h, raws[i])
    ensures r.Some? ==> BuiltFrom(h, raws, [], r.value)
  {
    if raws == [] { return None; }
    var profiles := map[];
    for i := 0 to |raws|
      invariant BuiltFrom(h, raws[..i], [], profiles)
    {
      var b := BuildProfile(h, raws[i]);
      if b.None? { return None; }
      BuiltOne(h, raws, i, profiles);
      profiles := profiles[raws[i].name := b.value];
    }
    assert raws[..|raws|] == raws;
    r := Some(profiles);
  }

  method BuildPreProcessors(h: Handle, refs: seq<Ref>) returns (ok: bool, plugins: seq<Processor>)
    ensures ok <==> All(h, refs, PreRefOk)
    ensures ok ==> plugins == Collect(h, refs, AsRequest) && |plugins| == |refs|
  {
    plugins := [];
    for i := 0 to |refs|
      invariant All(h, refs[..i], PreRefOk) && |plugins| == i
      invariant plugins == Collect(h, refs[..i], AsRequest)
    {
      var r := refs[i];
      if r.name !in h || h[r.name].request.None? {
        assert !PreRefOk(h, refs[i]);
        return false, [];
      }
      CollectOne(h, refs, i, AsRequest);
      plugins := plugins + [h[r.name].request.value];
    }
    assert refs[..|refs|] == refs;
    ok := true;
  }

  /** A plugin implementing both interfaces is placed in both lists. */
  method BuildPostProcessors(h: Handle, refs: seq<Ref>)
    returns (ok: bool, body: seq<Processor>, headers: seq<Processor>)
    ensures ok <==> All(h, refs, PostRefOk)
    ensures ok ==> body == Collect(h, refs, AsResponse) && headers == Collect(h, refs, AsHeaders)
  {
    body, headers := [], [];
    for i := 0 to |refs|
      invariant All(h, refs[..i], PostRefOk)
      invariant body == Collect(h, refs[..i], AsResponse) && headers == Collect(h, refs[..i], AsHeaders)
    {
      var r := refs[i];
      if r.name !in h || (h[r.name].headers.None? && h[r.name].response.None?) {
        assert !PostRefOk(h, refs[i]);
        return false, [], [];
      }
      CollectOne(h, refs, i, AsResponse);
      CollectOne(h, refs, i, AsHeaders);
      if h[r.name].headers.Some? {
        headers := headers + [h[r.name].headers.value];
      }
      if h[r.name].response.Some? {
        body := body + [h[r.name].response.value];
      }
    }
    assert refs[..|refs|] == refs;
    ok := true;
  }

  // ---------- post-processors force buffering ----------

  method ForceBuffering(profiles: map<string, Built>) returns (r: Option<map<string, Built>>)
    ensures r.Some? <==> forall name :: name in profiles ==> profiles[name].profile.chunkProcessors == []
    ensures r.Some? ==> r.value.Keys == profiles.Keys
    ensures r.Some? ==> forall name :: name in profiles ==> r.value[name] == Buffering(profiles[name])
  {
    var result := profiles;
    var todo := profiles.Keys;
    while todo != {}
      invariant todo <= profiles.Keys == result.Keys
      invariant forall name :: name in profiles ==>
        result[name] == if name in todo then profiles[name] else Buffering(profiles[name])
      invariant forall name :: name in profiles && name !in todo ==> profiles[name].profile.chunkProcessors == []
      decreases todo
    {
      var name :| name in todo;
      if |result[name].profile.chunkProcessors| > 0 { return None; }
      result := result[name := Buffering(result[name])];
      todo := todo - {name};
    }
    r := Some(result);
  }

  // ---------- the profile picker ----------

  const SINGLE := "single-profile-picker"

  lemma SingletonKeys(profiles: map<string, Profile>)
    requires |profiles| == 1
    ensures exists name :: profiles.Keys == {name}
  {
    var name :| name in profiles.Keys;
    assert |profiles.Keys - {name}| == 0;
    assert profiles.Keys == {name};
  }

  /** SingleProfilePicker: the only profile there is, or an error. */
  function Sole(profiles: map<string, Profile>): (r: Option<Profile>)
    ensures r.Some? <==> |profiles| == 1
    ensures r.Some? ==> exists name :: name in profiles && profiles[name] == r.value
  {
    if |profiles| != 1 then None else
      SingletonKeys(profiles);
      var name :| profiles.Keys == {name};
      Some(profiles[name])
  }

  function PickSole(m: Message, cycle: CycleState, profiles: map<string, Profile>): Pick {
    Pick(Sole(profiles), cycle)
  }

  function SinglePicker(): Plugin {
    Plugin(None, None, None, None, Roles(None, None, None), Some(PickSole), false)
  }

  ghost predicate IsPicker(h: Handle, name: string) { name in h && h[name].profilePicker.Some? }

  ghost predicate Explicit(raw: RawConfig) { raw.profilePicker.Some? && raw.profilePicker.value != "" }

  /** How an accepted configuration may get its picker: the one it names, whatever that is; else the only
      picker among the plugins; else, for a single profile, a default that is added to the plugins. */
  ghost predicate Resolves(h: Handle, raw: RawConfig, h': Handle, name: string) {
    if Explicit(raw) then h' == h && name == raw.profilePicker.value
    else if exists n :: IsPicker(h, n) then
      h' == h && IsPicker(h, name) && forall n :: IsPicker(h, n) ==> n == name
    else |raw.profiles| == 1 && h' == h[SINGLE := SinglePicker()] && name == SINGLE
  }

  method ApplyPluginDefaults(h: Handle, raw: RawConfig) returns (ok: bool, h': Handle, name: string)
    ensures ok ==> Resolves(h, raw, h', name)
    ensures !ok ==> forall g, n :: !Resolves(h, raw, g, n)
  {
    if raw.profilePicker.Some? && raw.profilePicker.value != "" {
      return true, h, raw.profilePicker.value;
    }
    var found: Option<string> := None;
    var todo := h.Keys;
    while todo != {}
      invariant todo <= h.Keys
      invariant found.Some? ==> IsPicker(h, found.value)
      invariant forall n :: IsPicker(h, n) && n !in todo ==> found == Some(n)
      decreases todo
    {
      var n :| n in todo;
      if h[n].profilePicker.Some? {
        if found.Some? && found.value != n {
          assert IsPicker(h, n) && IsPicker(h, found.value);
          return false, h, "";
        }
        found := Some(n);
      }
      todo := todo - {n};
    }
    if found.Some? {
      return true, h, found.value;
    }
    if |raw.profiles| != 1 {
      return false, h, "";
    }
    return true, h[SINGLE := SinglePicker()], SINGLE;
  }

  // ---------- model-selector pipelines ----------

  /** One call of AddPlugins on a model-selector instance. */
  datatype Use = Use(selector: string, elements: seq<Element>)

  /** The pipelines by selector instance; those not yet touched are empty. */
  type Wirings = map<string, Wiring>

  function At(w: Wirings, selector: string): Wiring { if selector in w then w[selector] else EmptyWiring }

  ghost predicate Permitted(w: Wiring, elements: seq<Element>) { Acceptable(w.picker.Some?, elements) }

  /** AddPlugins, then the max-score picker where there is still none. */
  function Extended(w: Wiring, elements: seq<Element>): Wiring {
    Wiring(w.filters + FiltersOf(elements), w.scorers + ScorersOf(elements),
           if PickersOf(elements) != [] then Some(PickersOf(elements)[0])
           else if w.picker.Some? then w.picker else Some(MaxScore))
  }

  ghost function WireUse(w: Wirings, use: Use): Option<Wirings> {
    if Permitted(At(w, use.selector), use.elements)
    then Some(w[use.selector := Extended(At(w, use.selector), use.elements)])
    else None
  }

  ghost function WireAll(uses: seq<Use>): Option<Wirings> {
    if uses == [] then Some(map[]) else
      var before := WireAll(uses[..|uses| - 1]);
      if before.None? then None else WireUse(before.value, uses[|uses| - 1])
  }

  lemma WireAllSnoc(uses: seq<Use>, use: Use)
    ensures WireAll(uses + [use]) == if WireAll(uses).None? then None else WireUse(WireAll(uses).value, use)
  {
    assert (uses + [use])[..|uses|] == uses;
  }

  /** All elements that were meant for a selector, in the order they were added. */
  ghost function ElementsFor(uses: seq<Use>, selector: string): seq<Element> {
    if uses == [] then [] else
      var use := uses[|uses| - 1];
      ElementsFor(uses[..|uses| - 1], selector) + (if use.selector == selector then use.elements else [])
  }

  ghost predicate Used(uses: seq<Use>, selector: string) {
    exists i :: 0 <= i < |uses| && uses[i].selector == selector
  }

  lemma UsedSnoc(uses: seq<Use>, selector: string)
    requires uses != []
    ensures Used(uses, selector) <==>
            Used(uses[..|uses| - 1], selector) || uses[|uses| - 1].selector == selector
  {
    if Used(uses, selector) {
      var i :| 0 <= i < |uses| && uses[i].selector == selector;
      assert i < |uses| - 1 ==> uses[..|uses| - 1][i].selector == selector;
    }
  }

  lemma {:induction false} FiltersOfConcat(a: seq<Element>, b: seq<Element>)
    ensures FiltersOf(a + b) == FiltersOf(a) + FiltersOf(b)
    ensures ScorersOf(a + b) == ScorersOf(a) + ScorersOf(b)
    ensures PickersOf(a + b) == PickersOf(a) + PickersOf(b)
    decreases |b|
  {
    if b == [] {
      assert a + b == a;
    } else {
      assert (a + b)[..|a + b| - 1] == a + b[..|b| - 1];
      FiltersOfConcat(a, b[..|b| - 1]);
    }
  }

  /** Each model selector of an accepted configuration ends up with exactly the filters and scorers given
      for it, in order, and with a picker: the one configured, or the max-score picker. A selector shared
      by several profiles merges what each of them configures. */
  lemma {:induction false} SelectorsAreWiredExactly(uses: seq<Use>, selector: string)
    requires WireAll(uses).Some?
    ensures var w := At(WireAll(uses).value, selector);
            var elements := ElementsFor(uses, selector);
            && w.filters == FiltersOf(elements)
            && w.scorers == ScorersOf(elements)
            && |PickersOf(elements)| <= 1
            && w.picker == (if !Used(uses, selector) then None
                            else if PickersOf(elements) == [] then Some(MaxScore) else Some(PickersOf(elements)[0]))
  {
    if uses != [] {
      var front, use := uses[..|uses| - 1], uses[|uses| - 1];
      SelectorsAreWiredExactly(front, selector);
      UsedSnoc(uses, selector);
      FiltersOfConcat(ElementsFor(front, selector), use.elements);
      UnusedHasNothing(front, selector);
      if use.selector != selector {
        assert ElementsFor(front, selector) + [] == ElementsFor(front, selector);
      }
    }
  }

  lemma {:induction false} UnusedHasNothing(uses: seq<Use>, selector: string)
    ensures !Used(uses, selector) ==> ElementsFor(uses, selector) == []
  {
    if uses != [] {
      UsedSnoc(uses, selector);
      UnusedHasNothing(uses[..|uses| - 1], selector);
    }
  }

  /** The first use of a selector may bring one picker, any later use none. */
  ghost predicate UseOk(uses: seq<Use>, i: nat)
    requires i < |uses|
  {
    && AllWeighted(uses[i].elements)
    && |PickersOf(uses[i].elements)| <= if Used(uses[..i], uses[i].selector) then 0 else 1
  }

  /** Exactly which sequences of uses are accepted. */
  lemma {:induction false} WiringAccepted(uses: seq<Use>)
    ensures WireAll(uses).Some? <==> forall i :: 0 <= i < |uses| ==> UseOk(uses, i)
  {
    if uses != [] {
      var n := |uses| - 1;
      var front, use := uses[..n], uses[n];
      WiringAccepted(front);
      forall i | 0 <= i < n ensures UseOk(front, i) <==> UseOk(uses, i) {
        assert front[..i] == uses[..i];
      }
      if WireAll(front).Some? {
        SelectorsAreWiredExactly(front, use.selector);
        assert UseOk(uses, n) <==> Permitted(At(WireAll(front).value, use.selector), use.elements);
      }
    }
  }

  /** Two profiles that share a selector, one of them with a picker: the order in which the profile map is
      visited decides whether the configuration loads. */
  lemma OrderDecides(plain: Use, picking: Use, p: Picker)
    requires plain.selector == picking.selector && plain.elements == []
    requires picking.elements == [Bare(Roles(None, None, Some(p)))]
    ensures WireAll([plain, picking]).None? && WireAll([picking, plain]).Some?
  {
    var a, b := [plain, picking], [picking, plain];
    var e := picking.elements;
    assert e[..0] == [] && PickersOf([]) == [];
    assert PickersOf(e) == [p];
    assert a[..0] == [] && b[..0] == [] && a[..1] == [plain] && b[..1] == [picking];
    assert a[..1][0].selector == picking.selector;
    assert !UseOk(a, 1);
    WiringAccepted(a);
    assert UseOk(b, 0) && UseOk(b, 1);
    WiringAccepted(b);
  }

  /** One use for each of the profile's first n selectors. */
  ghost function FirstUses(b: Built, n: nat): (r: seq<Use>)
    requires n <= |b.selectors|
    ensures |r| == n
  {
    if n == 0 then [] else FirstUses(b, n - 1) + [Use(b.selectors[n - 1], b.elements)]
  }

  lemma {:induction false} FirstUsesAt(b: Built, n: nat, k: nat)
    requires k < n <= |b.selectors|
    ensures FirstUses(b, n)[k] == Use(b.selectors[k], b.elements)
  {
    if k < n - 1 {
      FirstUsesAt(b, n - 1, k);
    }
  }

  ghost function UsesOf(b: Built): seq<Use> { FirstUses(b, |b.selectors|) }

  /** The uses of all profiles, in the order in which the profile map is visited. */
  ghost function AllUses(profiles: map<string, Built>, order: seq<string>): seq<Use> {
    if order == [] then [] else
      var name := order[|order| - 1];
      AllUses(profiles, order[..|order| - 1]) + (if name in profiles then UsesOf(profiles[name]) else [])
  }

  /** Every instance has a pipeline of its own, and w describes their contents. */
  ghost predicate Shows(pipelines: map<string, Pipeline>, w: Wirings)
    reads pipelines.Values
  {
    && (forall m, n :: m in pipelines && n in pipelines && m != n ==> pipelines[m] != pipelines[n])
    && (forall n :: n in pipelines ==> pipelines[n].Value() == At(w, n))
  }

  lemma {:induction false} FailureStays(uses: seq<Use>, b: Built, m: nat, n: nat)
    requires m <= n <= |b.selectors| && WireAll(uses + FirstUses(b, m)).None?
    ensures WireAll(uses + FirstUses(b, n)).None?
    decreases n
  {
    if m < n {
      FailureStays(uses, b, m, n - 1);
      var use := Use(b.selectors[n - 1], b.elements);
      WireAllSnoc(uses + FirstUses(b, n - 1), use);
      assert uses + FirstUses(b, n) == uses + FirstUses(b, n - 1) + [use];
    }
  }

  method WireOne(use: Use, pipelines: map<string, Pipeline>, ghost w: Wirings) returns (ok: bool)
    requires use.selector in pipelines && Shows(pipelines, w)
    modifies pipelines[use.selector]
    ensures ok <==> WireUse(w, use).Some?
    ensures ok ==> Shows(pipelines, WireUse(w, use).value)
  {
    ok := pipelines[use.selector].AddPlugins(use.elements);
    if ok && pipelines[use.selector].picker.None? {
      pipelines[use.selector].WithPicker(MaxScore);
    }
  }

  /** The inner loop of buildModelSelector: the model selectors among one profile's request plugins. */
  method WireProfile(b: Built, pipelines: map<string, Pipeline>, ghost uses: seq<Use>) returns (ok: bool)
    requires forall s :: s in b.selectors ==> s in pipelines
    requires WireAll(uses).Some? && Shows(pipelines, WireAll(uses).value)
    modifies pipelines.Values
    ensures ok <==> WireAll(uses + UsesOf(b)).Some?
    ensures ok ==> Shows(pipelines, WireAll(uses + UsesOf(b)).value)
  {
    ghost var w := WireAll(uses).value;
    assert uses + FirstUses(b, 0) == uses;
    for i := 0 to |b.selectors|
      invariant WireAll(uses + FirstUses(b, i)) == Some(w) && Shows(pipelines, w)
    {
      var use := Use(b.selectors[i], b.elements);
      WireNext(uses, b, i, w);
      ok := WireOne(use, pipelines, w);
      if !ok { return; }
      w := WireUse(w, use).value;
    }
    ok := true;
  }

  lemma WireNext(uses: seq<Use>, b: Built, i: nat, w: Wirings)
    requires i < |b.selectors| && WireAll(uses + FirstUses(b, i)) == Some(w)
    ensures var next := WireUse(w, Use(b.selectors[i], b.elements));
            && (next.Some? ==> WireAll(uses + FirstUses(b, i + 1)) == next)
            && (next.None? ==> WireAll(uses + UsesOf(b)).None?)
  {
    var use := Use(b.selectors[i], b.elements);
    WireAllSnoc(uses + FirstUses(b, i), use);
    assert uses + FirstUses(b, i + 1) == uses + FirstUses(b, i) + [use];
    if WireUse(w, use).None? {
      FailureStays(uses, b, i + 1, |b.selectors|);
    }
  }

  /** Some of the keys, each once. */
  ghost predicate VisitsSome(order: seq<string>, keys: set<string>) {
    && (forall n :: n in order ==> n in keys)
    && (forall i, j :: 0 <= i < j < |order| ==> order[i] != order[j])
  }

  /** All of the keys, each once. */
  ghost predicate Visits(order: seq<string>, keys: set<string>) {
    VisitsSome(order, keys) && forall n :: n in keys ==> n in order
  }

  ghost predicate HasPipelines(profiles: map<string, Built>, pipelines: map<string, Pipeline>) {
    forall n, s :: n in profiles && s in profiles[n].selectors ==> s in pipelines
  }

  /** `order` tells the order in which the map happened to be visited, up to and including the profile that
      could not be wired. */
  method BuildModelSelector(profiles: map<string, Built>, pipelines: map<string, Pipeline>)
    returns (ok: bool, ghost order: seq<string>)
    requires Shows(pipelines, map[]) && HasPipelines(profiles, pipelines)
    modifies pipelines.Values
    ensures VisitsSome(order, profiles.Keys)
    ensures ok <==> WireAll(AllUses(profiles, order)).Some?
    ensures ok ==> Visits(order, profiles.Keys)
    ensures ok ==> Shows(pipelines, WireAll(AllUses(profiles, order)).value)
  {
    order := [];
    var todo := profiles.Keys;
    while todo != {}
      invariant todo <= profiles.Keys && Visits(order, profiles.Keys - todo)
      invariant WireAll(AllUses(profiles, order)).Some?
      invariant Shows(pipelines, WireAll(AllUses(profiles, order)).value)
      decreases todo
    {
      var n :| n in todo;
      ok := WireProfile(profiles[n], pipelines, AllUses(profiles, order));
      assert (order + [n])[..|order|] == order;
      order := order + [n];
      if !ok { return; }
      todo := todo - {n};
    }
    ok := true;
  }

  ghost predicate ListedIn(profiles: map<string, Built>, order: seq<string>, selector: string)
    requires forall n :: n in order ==> n in profiles
  {
    exists i :: 0 <= i < |order| && selector in profiles[order[i]].selectors
  }

  lemma ListedSnoc(profiles: map<string, Built>, order: seq<string>, selector: string)
    requires order != [] && forall n :: n in order ==> n in profiles
    ensures ListedIn(profiles, order, selector) <==>
            || ListedIn(profiles, order[..|order| - 1], selector)
            || selector in profiles[order[|order| - 1]].selectors
  {
    var front := order[..|order| - 1];
    if i :| 0 <= i < |front| && selector in profiles[front[i]].selectors {
      assert order[i] == front[i];
    }
    if ListedIn(profiles, order, selector) {
      var i :| 0 <= i < |order| && selector in profiles[order[i]].selectors;
      assert i < |front| ==> front[i] == order[i];
    }
  }

  /** A selector has been used exactly when some profile visited lists it. */
  lemma {:induction false} UsedIffListed(profiles: map<string, Built>, order: seq<string>, selector: string)
    requires forall n :: n in order ==> n in profiles
    ensures Used(AllUses(profiles, order), selector) <==> ListedIn(profiles, order, selector)
  {
    if order != [] {
      var front, b := order[..|order| - 1], profiles[order[|order| - 1]];
      UsedIffListed(profiles, front, selector);
      ListedSnoc(profiles, order, selector);
      UsedConcat(AllUses(profiles, front), UsesOf(b), selector);
      UsedFirst(b, |b.selectors|, selector);
      assert b.selectors[..|b.selectors|] == b.selectors;
    }
  }

  lemma UsedConcat(a: seq<Use>, b: seq<Use>, selector: string)
    ensures Used(a + b, selector) <==> Used(a, selector) || Used(b, selector)
  {
    if i :| 0 <= i < |a| && a[i].selector == selector {
      assert (a + b)[i].selector == selector;
    }
    if i :| 0 <= i < |b| && b[i].selector == selector {
      assert (a + b)[|a| + i].selector == selector;
    }
  }

  lemma {:induction false} UsedFirst(b: Built, n: nat, selector: string)
    requires n <= |b.selectors|
    ensures Used(FirstUses(b, n), selector) <==> selector in b.selectors[..n]
  {
    if n > 0 {
      var use := Use(b.selectors[n - 1], b.elements);
      UsedFirst(b, n - 1, selector);
      UsedConcat(FirstUses(b, n - 1), [use], selector);
      assert Used([use], selector) <==> use.selector == selector by { assert [use][0] == use; }
      assert b.selectors[..n] == b.selectors[..n - 1] + [b.selectors[n - 1]];
    }
  }

  ghost predicate Listed(profiles: map<string, Built>, selector: string) {
    exists n :: n in profiles && selector in profiles[n].selectors
  }

  /** After a successful start a model selector has a picker exactly when some profile lists it; one that none
      lists is left as its factory made it. */
  lemma SelectorHasPickerIffListed(profiles: map<string, Built>, order: seq<string>, selector: string)
    requires Visits(order, profiles.Keys) && WireAll(AllUses(profiles, order)).Some?
    ensures var w := At(WireAll(AllUses(profiles, order)).value, selector);
            && (w.picker.Some? <==> Listed(profiles, selector))
            && (!Listed(profiles, selector) ==> w == EmptyWiring)
  {
    UsedIffListed(profiles, order, selector);
    if n :| n in profiles && selector in profiles[n].selectors {
      var i :| 0 <= i < |order| && order[i] == n;
    }
    SelectorsAreWiredExactly(AllUses(profiles, order), selector);
    UnusedHasNothing(AllUses(profiles, order), selector);
  }

  // ---------- the order in which the map is visited ----------

  ghost predicate NoRepeats(names: seq<string>) { forall i, j :: 0 <= i < j < |names| ==> names[i] != names[j] }

  ghost predicate HasPicker(b: Built) { PickersOf(b.elements) != [] }

  /** What a profile's own lists must satisfy: no bare scorer, and a picker only as the single one, for
      selectors that are each listed once. */
  ghost predicate SelfConsistent(b: Built) {
    b.selectors != [] ==>
      && AllWeighted(b.elements)
      && (HasPicker(b) ==> |PickersOf(b.elements)| == 1 && NoRepeats(b.selectors))
  }

  ghost predicate Share(a: Built, b: Built) { exists s :: s in a.selectors && s in b.selectors }

  /** A profile can be wired after these uses. */
  ghost predicate Fits(uses: seq<Use>, b: Built) {
    SelfConsistent(b) && (HasPicker(b) ==> forall s :: s in b.selectors ==> !Used(uses, s))
  }

  /** The same for the first n of its selectors. */
  ghost predicate FitsUpTo(uses: seq<Use>, b: Built, n: nat)
    requires n <= |b.selectors|
  {
    n > 0 ==>
      && AllWeighted(b.elements)
      && (HasPicker(b) ==>
            && |PickersOf(b.elements)| == 1 && NoRepeats(b.selectors[..n])
            && forall s :: s in b.selectors[..n] ==> !Used(uses, s))
  }

  lemma FitsOneMore(uses: seq<Use>, b: Built, n: nat)
    requires n < |b.selectors|
    ensures FitsUpTo(uses, b, n + 1) <==>
            && FitsUpTo(uses, b, n)
            && AllWeighted(b.elements)
            && |PickersOf(b.elements)| <=
               (if Used(uses, b.selectors[n]) || b.selectors[n] in b.selectors[..n] then 0 else 1)
  {
    var before, s := b.selectors[..n], b.selectors[n];
    assert b.selectors[..n + 1] == before + [s];
    NoRepeatsSnoc(before, s);
    assert s in before + [s];
  }

  lemma NoRepeatsSnoc(names: seq<string>, last: string)
    ensures NoRepeats(names + [last]) <==> NoRepeats(names) && last !in names
  {
    var all, n := names + [last], |names|;
    assert forall i :: 0 <= i < n ==> all[i] == names[i];
    assert all[n] == last;
    if i :| 0 <= i < n && names[i] == last {
      assert all[i] == all[n];
    }
    if NoRepeats(names) && last !in names {
      forall i, j | 0 <= i < j < |all| ensures all[i] != all[j] {
        assert all[i] == names[i] && names[i] in names;
      }
    }
  }

  lemma {:induction false} ProfileAcceptedUpTo(uses: seq<Use>, b: Built, n: nat)
    requires WireAll(uses).Some? && n <= |b.selectors|
    ensures WireAll(uses + FirstUses(b, n)).Some? <==> FitsUpTo(uses, b, n)
  {
    if n == 0 {
      assert uses + FirstUses(b, 0) == uses;
    } else {
      var use, before := Use(b.selectors[n - 1], b.elements), uses + FirstUses(b, n - 1);
      ProfileAcceptedUpTo(uses, b, n - 1);
      assert uses + FirstUses(b, n) == before + [use];
      WireAllSnoc(before, use);
      FitsOneMore(uses, b, n - 1);
      if WireAll(before).Some? {
        SelectorsAreWiredExactly(before, use.selector);
        UsedConcat(uses, FirstUses(b, n - 1), use.selector);
        UsedFirst(b, n - 1, use.selector);
      }
    }
  }

  lemma ProfileAccepted(uses: seq<Use>, b: Built)
    requires WireAll(uses).Some?
    ensures WireAll(uses + UsesOf(b)).Some? <==> Fits(uses, b)
  {
    ProfileAcceptedUpTo(uses, b, |b.selectors|);
    assert b.selectors[..|b.selectors|] == b.selectors;
  }

  /** Profile b is in place after the profiles `before`. */
  ghost predicate InPlace(profiles: map<string, Built>, before: seq<string>, b: Built)
    requires forall n :: n in before ==> n in profiles
  {
    SelfConsistent(b) && (HasPicker(b) ==> forall i :: 0 <= i < |before| ==> !Share(profiles[before[i]], b))
  }

  lemma InPlaceFits(profiles: map<string, Built>, before: seq<string>, b: Built)
    requires forall n :: n in before ==> n in profiles
    ensures Fits(AllUses(profiles, before), b) <==> InPlace(profiles, before, b)
  {
    forall s | s in b.selectors
      ensures Used(AllUses(profiles, before), s) <==>
              exists i :: 0 <= i < |before| && s in profiles[before[i]].selectors
    {
      UsedIffListed(profiles, before, s);
    }
    if HasPicker(b) && InPlace(profiles, before, b) {
      forall s, i | s in b.selectors && 0 <= i < |before| ensures s !in profiles[before[i]].selectors {
        assert !Share(profiles[before[i]], b);
      }
    }
  }

  lemma {:induction false} UsesFailureStays(profiles: map<string, Built>, order: seq<string>, i: nat)
    requires i <= |order| && WireAll(AllUses(profiles, order[..i])).None?
    ensures WireAll(AllUses(profiles, order)).None?
    decreases |order| - i
  {
    if i == |order| {
      assert order[..i] == order;
    } else {
      var n := order[i];
      assert order[..i + 1][..i] == order[..i];
      if n in profiles {
        assert AllUses(profiles, order[..i]) + FirstUses(profiles[n], 0) == AllUses(profiles, order[..i]);
        FailureStays(AllUses(profiles, order[..i]), profiles[n], 0, |profiles[n].selectors|);
      } else {
        assert AllUses(profiles, order[..i]) + [] == AllUses(profiles, order[..i]);
      }
      UsesFailureStays(profiles, order, i + 1);
    }
  }

  ghost predicate OrderOk(profiles: map<string, Built>, order: seq<string>)
    requires forall n :: n in order ==> n in profiles
  {
    forall i :: 0 <= i < |order| ==> InPlace(profiles, order[..i], profiles[order[i]])
  }

  /** Exactly which visiting orders are accepted. */
  lemma {:induction false} OrderAccepted(profiles: map<string, Built>, order: seq<string>)
    requires forall n :: n in order ==> n in profiles
    ensures WireAll(AllUses(profiles, order)).Some? <==> OrderOk(profiles, order)
  {
    if order != [] {
      var n := |order| - 1;
      var front, b := order[..n], profiles[order[n]];
      OrderAccepted(profiles, front);
      OrderSnoc(profiles, order);
      if WireAll(AllUses(profiles, front)).Some? {
        ProfileAccepted(AllUses(profiles, front), b);
        InPlaceFits(profiles, front, b);
      } else {
        UsesFailureStays(profiles, order, n);
      }
    }
  }

  lemma OrderSnoc(profiles: map<string, Built>, order: seq<string>)
    requires order != [] && forall n :: n in order ==> n in profiles
    ensures var n := |order| - 1;
            OrderOk(profiles, order) <==>
            OrderOk(profiles, order[..n]) && InPlace(profiles, order[..n], profiles[order[n]])
  {
    var n := |order| - 1;
    var front := order[..n];
    forall i | 0 <= i < n
      ensures InPlace(profiles, front[..i], profiles[front[i]]) <==> InPlace(profiles, order[..i], profiles[order[i]])
    {
      assert front[..i] == order[..i];
    }
  }

  lemma {:induction false} SomeOrder(keys: set<string>) returns (order: seq<string>)
    ensures Visits(order, keys)
    decreases keys
  {
    if keys == {} {
      order := [];
    } else {
      var n :| n in keys;
      order := SomeOrder(keys - {n});
      order := order + [n];
    }
  }

  /** No profile with a picker shares a selector with any other profile. */
  ghost predicate OrderFree(profiles: map<string, Built>) {
    && (forall n :: n in profiles ==> SelfConsistent(profiles[n]))
    && (forall m, n :: m in profiles && n in profiles && m != n && HasPicker(profiles[n]) ==>
          !Share(profiles[m], profiles[n]))
  }

  /** No two profiles with pickers share a selector. */
  ghost predicate Orderable(profiles: map<string, Built>) {
    && (forall n :: n in profiles ==> SelfConsistent(profiles[n]))
    && (forall m, n :: m in profiles && n in profiles && m != n && HasPicker(profiles[m]) && HasPicker(profiles[n]) ==>
          !Share(profiles[m], profiles[n]))
  }

  ghost predicate Loads(profiles: map<string, Built>, order: seq<string>) {
    WireAll(AllUses(profiles, order)).Some?
  }

  lemma FreeOrderLoads(profiles: map<string, Built>, order: seq<string>)
    requires OrderFree(profiles) && Visits(order, profiles.Keys)
    ensures Loads(profiles, order)
  {
    OrderAccepted(profiles, order);
    forall i | 0 <= i < |order| ensures InPlace(profiles, order[..i], profiles[order[i]]) {
      forall j | 0 <= j < i && HasPicker(profiles[order[i]]) ensures !Share(profiles[order[..i][j]], profiles[order[i]]) {
        assert order[..i][j] == order[j] && order[j] != order[i];
      }
    }
  }

  /** Visiting n last puts every other profile before it. */
  lemma LastOrderFails(profiles: map<string, Built>, m: string, n: string) returns (order: seq<string>)
    requires m in profiles && n in profiles && m != n && HasPicker(profiles[n]) && Share(profiles[m], profiles[n])
    ensures Visits(order, profiles.Keys) && !Loads(profiles, order)
  {
    var before := SomeOrder(profiles.Keys - {n});
    order := before + [n];
    assert m in before;
    var i :| 0 <= i < |before| && before[i] == m;
    OrderAccepted(profiles, order);
    assert order[..|before|] == before;
    assert !InPlace(profiles, before, profiles[n]);
    assert !InPlace(profiles, order[..|before|], profiles[order[|before|]]);
  }

  lemma InconsistentFails(profiles: map<string, Built>, n: string, order: seq<string>)
    requires Visits(order, profiles.Keys) && n in profiles && !SelfConsistent(profiles[n])
    ensures !Loads(profiles, order)
  {
    OrderAccepted(profiles, order);
    var i :| 0 <= i < |order| && order[i] == n;
    assert !InPlace(profiles, order[..i], profiles[order[i]]);
  }

  /** Whether a configuration loads does not depend on the order in which the profile map is visited - it
      always loads - exactly when every profile is consistent in itself and every selector that gets a picker
      is used by one profile only. */
  lemma LoadsInEveryOrderIff(profiles: map<string, Built>)
    ensures (forall order :: Visits(order, profiles.Keys) ==> Loads(profiles, order)) <==> OrderFree(profiles)
  {
    if OrderFree(profiles) {
      forall order | Visits(order, profiles.Keys) ensures Loads(profiles, order) {
        FreeOrderLoads(profiles, order);
      }
    } else if n :| n in profiles && !SelfConsistent(profiles[n]) {
      var order := SomeOrder(profiles.Keys);
      InconsistentFails(profiles, n, order);
    } else {
      var m, n :| m in profiles && n in profiles && m != n && HasPicker(profiles[n]) && Share(profiles[m], profiles[n]);
      var order := LastOrderFails(profiles, m, n);
    }
  }

  lemma JoinedOrder(first: seq<string>, rest: seq<string>, some: set<string>, keys: set<string>)
    requires Visits(first, some) && Visits(rest, keys - some) && some <= keys
    ensures Visits(first + rest, keys)
  {
    var order := first + rest;
    forall n ensures n in order <==> n in keys {
      assert n in order <==> n in first || n in rest;
    }
    forall i, j | 0 <= i < j < |order| ensures order[i] != order[j] {
      assert order[i] == if i < |first| then first[i] else rest[i - |first|];
      assert order[j] == if j < |first| then first[j] else rest[j - |first|];
      if i < |first| <= j {
        assert order[i] in first && order[j] in rest;
      }
    }
  }

  /** Profiles with pickers come first, so that only such profiles come before them. */
  lemma FirstInPlace(profiles: map<string, Built>, first: seq<string>, i: nat)
    requires Orderable(profiles) && i < |first| && NoRepeats(first)
    requires forall n :: n in first ==> n in profiles && HasPicker(profiles[n])
    ensures InPlace(profiles, first[..i], profiles[first[i]])
  {
    forall j | 0 <= j < i ensures !Share(profiles[first[..i][j]], profiles[first[i]]) {
      assert first[j] != first[i] && first[j] in first && first[i] in first;
    }
  }

  lemma PickersFirstLoads(profiles: map<string, Built>) returns (order: seq<string>)
    requires Orderable(profiles)
    ensures Visits(order, profiles.Keys) && Loads(profiles, order)
  {
    var picking := set n | n in profiles.Keys && HasPicker(profiles[n]);
    var first := SomeOrder(picking);
    var rest := SomeOrder(profiles.Keys - picking);
    order := first + rest;
    JoinedOrder(first, rest, picking, profiles.Keys);
    OrderAccepted(profiles, order);
    forall i | 0 <= i < |order| ensures InPlace(profiles, order[..i], profiles[order[i]]) {
      if i < |first| {
        FirstInPlace(profiles, first, i);
        assert order[..i] == first[..i] && order[i] == first[i];
      } else {
        assert order[i] == rest[i - |first|] && rest[i - |first|] in rest;
      }
    }
  }

  lemma LaterFails(profiles: map<string, Built>, order: seq<string>, i: nat, j: nat)
    requires (forall n :: n in order ==> n in profiles) && i < j < |order|
    requires HasPicker(profiles[order[j]]) && Share(profiles[order[i]], profiles[order[j]])
    ensures !Loads(profiles, order)
  {
    OrderAccepted(profiles, order);
    assert order[..j][i] == order[i];
    assert !InPlace(profiles, order[..j], profiles[order[j]]);
  }

  lemma ShareIsSymmetric(a: Built, b: Built)
    requires Share(a, b)
    ensures Share(b, a)
  {
    var s :| s in a.selectors && s in b.selectors;
  }

  lemma TwoPickersFail(profiles: map<string, Built>, m: string, n: string, order: seq<string>)
    requires Visits(order, profiles.Keys) && m in profiles && n in profiles && m != n
    requires HasPicker(profiles[m]) && HasPicker(profiles[n]) && Share(profiles[m], profiles[n])
    ensures !Loads(profiles, order)
  {
    ShareIsSymmetric(profiles[m], profiles[n]);
    var i :| 0 <= i < |order| && order[i] == m;
    var j :| 0 <= j < |order| && order[j] == n;
    if i < j {
      LaterFails(profiles, order, i, j);
    } else {
      LaterFails(profiles, order, j, i);
    }
  }

  /** It loads in some order exactly when every profile is consistent in itself and no selector gets pickers
      from two profiles. */
  lemma LoadsInSomeOrderIff(profiles: map<string, Built>)
    ensures (exists order :: Visits(order, profiles.Keys) && Loads(profiles, order)) <==> Orderable(profiles)
  {
    if Orderable(profiles) {
      var order := PickersFirstLoads(profiles);
    } else if n :| n in profiles && !SelfConsistent(profiles[n]) {
      forall order | Visits(order, profiles.Keys) ensures !Loads(profiles, order) {
        InconsistentFails(profiles, n, order);
      }
    } else {
      var m, n :| m in profiles && n in profiles && m != n && HasPicker(profiles[m]) && HasPicker(profiles[n]) &&
                  Share(profiles[m], profiles[n]);
      forall order | Visits(order, profiles.Keys) ensures !Loads(profiles, order) {
        TwoPickersFail(profiles, m, n, order);
      }
    }
  }

  // ---------- the whole configuration ----------

  /** The parts that do not depend on the picker. */
  ghost predicate Consists(h: Handle, raw: RawConfig, c: Loaded) {
    && raw.profiles != []
    && BuiltFrom(h, raw.profiles, c.postProcessors, c.profiles)
    && All(h, raw.preProcessing, PreRefOk)
    && c.preProcessors == Collect(h, raw.preProcessing, AsRequest)
    && All(h, raw.postProcessing, PostRefOk)
    && c.postProcessors == Collect(h, raw.postProcessing, AsResponse)
    && c.headersPostProcessors == Collect(h, raw.postProcessing, AsHeaders)
  }

  /** What an accepted configuration looks like once loaded; h' is the handle after defaults. */
  ghost predicate Accepted(h: Handle, raw: RawConfig, h': Handle, picker: string, c: Loaded) {
    && Resolves(h, raw, h', picker)
    && c.picker == (if IsPicker(h', picker) then h'[picker].profilePicker else None)
    && Consists(h', raw, c)
  }

  lemma BufferedFrom(
    h: Handle, raws: seq<RawProfile>, post: seq<Processor>, built: map<string, Built>, profiles: map<string, Built>)
    requires post != [] && BuiltFrom(h, raws, [], built) && profiles.Keys == built.Keys
    requires forall n :: n in built ==> profiles[n] == Buffering(built[n]) && built[n].profile.chunkProcessors == []
    ensures BuiltFrom(h, raws, post, profiles)
  {
    forall name | name in profiles ensures Traced(h, raws, post, name, profiles[name]) {
      var i: nat :| ComesFrom(h, raws, [], i, name, built[name]);
      assert ComesFrom(h, raws, post, i, name, profiles[name]);
    }
  }

  /** Two ways to resolve the picker are the same way. */
  lemma ResolvesOnce(h: Handle, raw: RawConfig, h1: Handle, n1: string, h2: Handle, n2: string)
    requires Resolves(h, raw, h1, n1) && Resolves(h, raw, h2, n2)
    ensures h1 == h2 && n1 == n2
  {
  }

  /** Buffering aside, a profile is the same with and without post-processors. */
  lemma SameOrigin(
    h: Handle, raws: seq<RawProfile>, post: seq<Processor>, built: map<string, Built>, profiles: map<string, Built>,
    name: string)
    requires post != [] && BuiltFrom(h, raws, [], built) && BuiltFrom(h, raws, post, profiles) && name in built
    ensures name in profiles && profiles[name] == Buffering(built[name]) && built[name].profile.chunkProcessors == []
  {
    var i: nat :| ComesFrom(h, raws, [], i, name, built[name]);
    var j: nat :| ComesFrom(h, raws, post, j, name, profiles[name]);
    assert raws[i].name == raws[j].name;
  }

  /** No way to resolve the picker leads to a loaded configuration. */
  ghost predicate Rejected(h: Handle, raw: RawConfig) { forall g, n, c :: !Accepted(h, raw, g, n, c) }

  lemma NoOtherWay(h: Handle, raw: RawConfig, h': Handle, picker: string)
    requires Resolves(h, raw, h', picker) && forall c :: !Consists(h', raw, c)
    ensures Rejected(h, raw)
  {
    forall g, n, c ensures !Accepted(h, raw, g, n, c) {
      if Resolves(h, raw, g, n) {
        ResolvesOnce(h, raw, g, n, h', picker);
      }
    }
  }

  /** Everything but the model selectors. */
  method Assemble(h: Handle, raw: RawConfig) returns (r: Option<Loaded>, h': Handle, picker: string)
    ensures r.Some? ==> Accepted(h, raw, h', picker, r.value)
    ensures r.None? ==> Rejected(h, raw)
  {
    r := None;
    var ok;
    ok, h', picker := ApplyPluginDefaults(h, raw);
    if !ok { return; }
    var profilePicker := if picker in h' then h'[picker].profilePicker else None;
    r := AssembleWith(h', raw, profilePicker);
    if r.None? {
      NoOtherWay(h, raw, h', picker);
    }
  }

  method AssembleWith(h: Handle, raw: RawConfig, picker: Option<ProfilePicker>) returns (r: Option<Loaded>)
    ensures r.Some? ==> r.value.picker == picker && Consists(h, raw, r.value)
    ensures r.None? ==> forall c :: !Consists(h, raw, c)
  {
    var built := BuildProfiles(h, raw.profiles);
    if built.None? { return None; }
    var okPre, pre := BuildPreProcessors(h, raw.preProcessing);
    if !okPre { return None; }
    var okPost, post, headers := BuildPostProcessors(h, raw.postProcessing);
    if !okPost { return None; }
    var profiles := built.value;
    if |post| > 0 {
      var forced := ForceBuffering(profiles);
      if forced.None? {
        ghost var name :| name in profiles && profiles[name].profile.chunkProcessors != [];
        forall c ensures !Consists(h, raw, c) {
          if BuiltFrom(h, raw.profiles, post, c.profiles) {
            SameOrigin(h, raw.profiles, post, profiles, c.profiles, name);
          }
        }
        return None;
      }
      BufferedFrom(h, raw.profiles, post, profiles, forced.value);
      profiles := forced.value;
    }
    r := Some(Loaded(picker, profiles, pre, post, headers));
  }

  /** LoadConfiguration on instantiated plugins. `pipelines` are the pipelines of the model-selector
      instances, which their factory creates empty. A configuration loads exactly when its parts can be
      assembled and its selectors wired in the order in which the profile map is visited. */
  method LoadConfiguration(h: Handle, raw: RawConfig, pipelines: map<string, Pipeline>)
    returns (r: Option<Loaded>, h': Handle, picker: string, ghost order: seq<string>)
    requires forall n :: n in h && h[n].modelSelector ==> n in pipelines
    requires Shows(pipelines, map[])
    modifies pipelines.Values
    ensures r.Some? ==> Accepted(h, raw, h', picker, r.value)
    ensures r.Some? ==> Visits(order, r.value.profiles.Keys) && WireAll(AllUses(r.value.profiles, order)).Some?
    ensures r.Some? ==> Shows(pipelines, WireAll(AllUses(r.value.profiles, order)).value)
    ensures r.Some? ==> forall s :: s in pipelines ==>
              && (pipelines[s].picker.Some? <==> NamedByKept(h', raw, s))
              && (!NamedByKept(h', raw, s) ==> pipelines[s].Value() == EmptyWiring)
    ensures r.None? ==>
              || Rejected(h, raw)
              || exists c :: Accepted(h, raw, h', picker, c) && VisitsSome(order, c.profiles.Keys) &&
                             WireAll(AllUses(c.profiles, order)).None?
  {
    r, order := None, [];
    r, h', picker := Assemble(h, raw);
    if r.None? { return; }
    var c := r.value;
    SelectorsHavePipelines(h', raw.profiles, c.postProcessors, c.profiles, pipelines);
    var ok;
    ok, order := BuildModelSelector(c.profiles, pipelines);
    if !ok { return None, h', picker, order; }
    forall s ensures (At(WireAll(AllUses(c.profiles, order)).value, s).picker.Some? <==> NamedByKept(h', raw, s)) &&
                     (!NamedByKept(h', raw, s) ==> At(WireAll(AllUses(c.profiles, order)).value, s) == EmptyWiring) {
      SelectorHasPickerIffListed(c.profiles, order, s);
      ListedIffNamed(h', raw, c, s);
    }
  }

  /** The references name s, and s is a model selector. */
  ghost predicate Refers(h: Handle, refs: seq<Ref>, s: string) {
    && s in h && h[s].request.Some? && h[s].modelSelector
    && exists k :: 0 <= k < |refs| && refs[k].name == s
  }

  /** A profile that stays in the map names model selector s among its request plugins. */
  ghost predicate NamedByKept(h: Handle, raw: RawConfig, s: string) {
    exists i: nat :: LastNamed(raw.profiles, i) && raw.profiles[i].plugins.Some? &&
                     Refers(h, raw.profiles[i].plugins.value.request, s)
  }

  lemma {:induction false} CollectedIffReferred(h: Handle, refs: seq<Ref>, s: string)
    ensures s in Collect(h, refs, AsSelector) <==> Refers(h, refs, s)
  {
    if refs != [] {
      var front, last := refs[..|refs| - 1], refs[|refs| - 1];
      CollectedIffReferred(h, front, s);
      assert refs == front + [last];
      if k :| 0 <= k < |front| && front[k].name == s {
        assert refs[k].name == s;
      }
      if k :| 0 <= k < |refs| && refs[k].name == s && last.name != s {
        assert front[k].name == s;
      }
    }
  }

  lemma ListedIffNamed(h: Handle, raw: RawConfig, c: Loaded, s: string)
    requires Consists(h, raw, c)
    ensures Listed(c.profiles, s) <==> NamedByKept(h, raw, s)
  {
    if n :| n in c.profiles && s in c.profiles[n].selectors {
      var i: nat :| ComesFrom(h, raw.profiles, c.postProcessors, i, n, c.profiles[n]);
      CollectedIffReferred(h, raw.profiles[i].plugins.value.request, s);
    }
    if i: nat :| LastNamed(raw.profiles, i) && raw.profiles[i].plugins.Some? &&
                 Refers(h, raw.profiles[i].plugins.value.request, s) {
      var n := raw.profiles[i].name;
      var j: nat :| ComesFrom(h, raw.profiles, c.postProcessors, j, n, c.profiles[n]);
      assert i == j;
      CollectedIffReferred(h, raw.profiles[i].plugins.value.request, s);
    }
  }

  /** Any RequestProcessor can be added to the pre-processors of an accepted configuration, a model selector
      that no profile names included: nothing else changes. */
  lemma PreProcessorsMayBeSelectors(h: Handle, raw: RawConfig, h': Handle, picker: string, c: Loaded, s: string)
    requires Accepted(h, raw, h', picker, c) && s in h' && h'[s].request.Some?
    ensures var raw' := raw.(preProcessing := raw.preProcessing + [Ref(s, None)]);
            && Accepted(h, raw', h', picker, c.(preProcessors := c.preProcessors + [h'[s].request.value]))
            && (NamedByKept(h', raw', s) <==> NamedByKept(h', raw, s))
  {
    var refs := raw.preProcessing + [Ref(s, None)];
    var raw' := raw.(preProcessing := refs);
    assert refs[..|refs| - 1] == raw.preProcessing;
    assert All(h', refs, PreRefOk);
    assert raw'.profiles == raw.profiles;
  }

  /** A pipeline as its factory made it panics on any candidate. */
  lemma EmptyWiringPanics(q: Query, candidates: seq<Ranking.Model>)
    ensures PanicsOn(EmptyWiring, q, candidates) <==> candidates != []
  {
  }

  /** The first selection of a model selector once its configuration has loaded. On an empty datastore it fails.
      Otherwise it panics exactly when no kept profile names the selector - as when it is only a pre-processor -
      or a scorer of its pipeline panics on the survivors. */
  method FirstSelection(
    h: Handle, raw: RawConfig, selectors: map<string, ModelSelectorPlugin>, pipelines: map<string, Pipeline>,
    s: string, q: Query, draw: nat -> nat)
    returns (loaded: bool, r: RunResult, ghost candidates: seq<Ranking.Model>)
    requires forall n :: n in h && h[n].modelSelector ==> n in pipelines
    requires Shows(pipelines, map[])
    requires s in pipelines && s in selectors && selectors[s].pipeline == pipelines[s]
    modifies pipelines.Values
    ensures loaded ==> Lists(candidates, selectors[s].ds.models)
    ensures loaded ==> exists h', name ::
              && Resolves(h, raw, h', name)
              && (r.Panics? <==>
                    && selectors[s].ds.models != map[]
                    && var models := Surviving(pipelines[s].filters, q, candidates);
                       !NamedByKept(h', raw, s) || (models != [] && SomeScorerPanics(pipelines[s].scorers, q, models)))
  {
    candidates := [];
    var c, h', name, order := LoadConfiguration(h, raw, pipelines);
    if c.None? { return false, Panics, candidates; }
    r, candidates := selectors[s].Select(q, draw);
    loaded := true;
    EmptyWiringPanics(q, candidates);
    if candidates == [] {
      assert selectors[s].ds.models.Keys == {};
    } else {
      assert candidates[0] in selectors[s].ds.models;
    }
    assert Resolves(h, raw, h', name);
  }

  lemma SelectorsHavePipelines(
    h: Handle, raws: seq<RawProfile>, post: seq<Processor>, profiles: map<string, Built>,
    pipelines: map<string, Pipeline>)
    requires BuiltFrom(h, raws, post, profiles)
    requires forall n :: n in h && h[n].modelSelector ==> n in pipelines
    ensures HasPipelines(profiles, pipelines)
  {
    forall n, s | n in profiles && s in profiles[n].selectors ensures s in pipelines {
      var i: nat :| ComesFrom(h, raws, post, i, n, profiles[n]);
      CollectedIffReferred(h, raws[i].plugins.value.request, s);
    }
  }

  // ---------- what accepted configurations guarantee to streams ----------

  /** No accepted profile mixes whole-body and chunk plugins, and each buffers whenever it or a
      post-processor needs the whole body. */
  lemma AcceptedProfilesAreSound(h: Handle, raw: RawConfig, h': Handle, picker: string, c: Loaded, name: string)
    requires Accepted(h, raw, h', picker, c) && name in c.profiles
    ensures SoundProfile(c.profiles[name].profile, c.postProcessors)
  {
    var i: nat :| ComesFrom(h', raw.profiles, c.postProcessors, i, name, c.profiles[name]);
  }

  /** The server that runs a loaded configuration. */
  ghost predicate Serves(server: Server, c: Loaded) {
    && server.picker == c.picker
    && server.preProcessors == c.preProcessors
    && server.postProcessors == c.postProcessors
    && server.headersPostProcessors == c.headersPostProcessors
    && server.profiles.Keys == c.profiles.Keys
    && (forall n :: n in c.profiles ==> server.profiles[n] == c.profiles[n].profile)
  }

  /** A profile picker answers with one of the profiles it is given. */
  ghost predicate PicksGiven(p: ProfilePicker) {
    forall m, cycle, profiles :: p(m, cycle, profiles).profile.Some? ==>
      exists name :: name in profiles && profiles[name] == p(m, cycle, profiles).profile.value
  }

  lemma AcceptedServersAreSound(h: Handle, raw: RawConfig, h': Handle, picker: string, c: Loaded, server: Server)
    requires Accepted(h, raw, h', picker, c) && Serves(server, c)
    requires c.picker.Some? ==> PicksGiven(c.picker.value)
    ensures SoundServer(server)
  {
    forall name | name in server.profiles ensures SoundProfile(server.profiles[name], server.postProcessors) {
      AcceptedProfilesAreSound(h, raw, h', picker, c, name);
    }
  }

  /** The default picker keeps its word. */
  lemma SolePicksGiven()
    ensures PicksGiven(PickSole)
  {
  }

  /** The loader reports a `profilePicker` reference that is no picker but loads on: the loaded
      configuration lacks a picker exactly when the file names something else there. */
  lemma PickerMissingIffMisnamed(h: Handle, raw: RawConfig, h': Handle, picker: string, c: Loaded)
    requires Accepted(h, raw, h', picker, c)
    ensures c.picker.None? <==> Explicit(raw) && !IsPicker(h, raw.profilePicker.value)
  {
  }

  /** Without a picker the first request body that parses and passes the pre-processors panics. */
  lemma MissingPickerPanics(server: Server, t: Trace, bytes: Bytes)
    requires server.picker.None? && t.state.status == Running && !t.state.requestBodyComplete
    ensures var whole := Unmarshal(server.codec, t.state.ctx.request.body, t.state.requestBody + bytes);
            var crashed := Deliver(server, t, RequestBody(bytes, true)).state.status == Crashed;
            if whole.None? then !crashed else
              var pre := RunProcessors(server.preProcessors, t.state.ctx.request.(body := whole.value), t.state.ctx.cycle);
              crashed <==> pre.error.None? || pre.error.value.code == NilDereference
  {
  }
}
