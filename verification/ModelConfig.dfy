/** The datastore of models and the attributes plugins keep on them. */
module Datastore {
  import opened Common
  import opened Json
  import opened Ranking

  /** USD per token. */
  datatype TokenPrices = TokenPrices(input: real, output: real)

  /** A value some plugin attaches to a model; a t-digest stands for the samples it was given. */
  datatype Attribute = CostDigest(samples: multiset<real>) | RequestCount(requests: int, tokens: int) | Other(value: Value)

  /** A model's attribute map; the two attributes of the config file are kept apart from all others. */
  datatype Attributes = Attributes(
    prices: Option<TokenPrices>, groups: Option<seq<string>>, others: map<string, Attribute>)

  const NoAttributes := Attributes(None, None, map[])

  type Models = map<Model, Attributes>

  function AttributesOf(models: Models, name: Model): Attributes {
    if name in models then models[name] else NoAttributes
  }

  class Store {
    var models: Models

    constructor ()
      ensures models == map[]
    {
      models := map[];
    }

    /** Creates the model unless it exists; never disturbs one that does. */
    method GetOrCreateModel(name: Model) returns (a: Attributes)
      modifies this
      ensures models == old(models)[name := AttributesOf(old(models), name)]
      ensures a == models[name]
    {
      if name in models { return models[name]; }
      models := models[name := NoAttributes];
      a := NoAttributes;
    }

    /** Attribute writes go through the model that GetOrCreateModel returned. */
    method PutAttributes(name: Model, a: Attributes)
      requires name in models
      modifies this
      ensures models == old(models)[name := a]
    {
      models := models[name := a];
    }

    method DeleteModel(name: Model)
      modifies this
      ensures models == old(models) - {name}
    {
      models := models - {name};
    }

    /** Every model that satisfies the predicate, once each, in no particular order. */
    method GetModels(wanted: (Model, Attributes) -> bool) returns (r: seq<Model>)
      ensures forall m :: m in r <==> m in models && wanted(m, models[m])
      ensures forall i, j :: 0 <= i < j < |r| ==> r[i] != r[j]
    {
      r := [];
      var todo := models.Keys;
      while todo != {}
        invariant todo <= models.Keys
        invariant forall m :: m in r <==> m in models && m !in todo && wanted(m, models[m])
        invariant forall i, j :: 0 <= i < j < |r| ==> r[i] != r[j]
        decreases todo
      {
        var m :| m in todo;
        if wanted(m, models[m]) {
          r := r + [m];
        }
        todo := todo - {m};
      }
    }
  }
}

/** Synchronising the datastore with the models config file. */
module ModelConfig {
  import opened Common
  import opened Json
  import opened Ranking
  import opened Datastore

  datatype Entry = Entry(name: string, inputPerMillion: real, outputPerMillion: real)
  datatype Group = Group(name: string, models: seq<string>)
  datatype Config = Config(models: seq<Entry>, groups: seq<Group>)

  const EmptyConfig := Config([], [])

  // ---------- what a config file says ----------

  predicate ValidEntry(e: Entry) { e.name != "" && e.inputPerMillion >= 0.0 && e.outputPerMillion >= 0.0 }

  /** The names the datastore is to hold. */
  ghost predicate Desired(entries: seq<Entry>, name: string) {
    exists i ::
      && 0 <= i < |entries| && entries[i].name == name != ""
      && entries[i].inputPerMillion >= 0.0 && entries[i].outputPerMillion >= 0.0
  }

  /** Entry i is the last valid one for its name. */
  ghost predicate LastValid(entries: seq<Entry>, i: nat) {
    && i < |entries| && ValidEntry(entries[i])
    && forall j :: i < j < |entries| && ValidEntry(entries[j]) ==> entries[j].name != entries[i].name
  }

  /** From USD per million tokens to USD per token. */
  function ToTokenPrices(e: Entry): (r: TokenPrices)
    ensures 1000000.0 * r.input == e.inputPerMillion && 1000000.0 * r.output == e.outputPerMillion
  {
    TokenPrices(e.inputPerMillion / 1000000.0, e.outputPerMillion / 1000000.0)
  }

  /** One copy of the group's name for every time it lists the model. */
  function Listings(g: string, models: seq<string>, name: string): seq<string> {
    if models == [] then []
    else Listings(g, models[..|models| - 1], name) + (if models[|models| - 1] == name then [g] else [])
  }

  /** The groups of a model, in file order. */
  function Membership(groups: seq<Group>, name: string): seq<string> {
    if groups == [] then [] else
      var g := groups[|groups| - 1];
      Membership(groups[..|groups| - 1], name) + (if g.name == "" then [] else Listings(g.name, g.models, name))
  }

  function GroupsOf(groups: seq<Group>, name: string): Option<seq<string>> {
    if Membership(groups, name) == [] then None else Some(Membership(groups, name))
  }

  /** Some group named g lists the model. */
  ghost predicate Lists(groups: seq<Group>, g: string, name: string) {
    exists i :: 0 <= i < |groups| && groups[i].name == g && name in groups[i].models
  }

  lemma ListsSnoc(groups: seq<Group>, last: Group, g: string, name: string)
    ensures Lists(groups + [last], g, name) <==> Lists(groups, g, name) || (last.name == g && name in last.models)
  {
    var all := groups + [last];
    assert all[|groups|] == last && forall i :: 0 <= i < |groups| ==> all[i] == groups[i];
  }

  lemma {:induction false} ListingsHold(g: string, models: seq<string>, name: string, h: string)
    ensures h in Listings(g, models, name) <==> h == g && name in models
  {
    if models != [] {
      ListingsHold(g, models[..|models| - 1], name, h);
      assert models == models[..|models| - 1] + [models[|models| - 1]];
    }
  }

  /** Inverting the group lists loses and adds nothing. */
  lemma {:induction false} MembershipInverts(groups: seq<Group>, name: string, g: string)
    requires g != ""
    ensures g in Membership(groups, name) <==> Lists(groups, g, name)
  {
    if groups != [] {
      var front, last := groups[..|groups| - 1], groups[|groups| - 1];
      assert groups == front + [last];
      MembershipInverts(front, name, g);
      ListingsHold(last.name, last.models, name, g);
      ListsSnoc(front, last, g, name);
    }
  }

  // ---------- one sync ----------

  /** Refreshes the config attributes of one model and leaves the others. */
  function Refreshed(a: Attributes, groups: seq<Group>, e: Entry): Attributes {
    Attributes(Some(ToTokenPrices(e)), GroupsOf(groups, e.name), a.others)
  }

  /** The registration loop. */
  function Register(models: Models, groups: seq<Group>, entries: seq<Entry>): Models {
    if entries == [] then models else
      var before := Register(models, groups, entries[..|entries| - 1]);
      var e := entries[|entries| - 1];
      if ValidEntry(e) then before[e.name := Refreshed(AttributesOf(before, e.name), groups, e)] else before
  }

  /** The datastore after a sync, by what the file says and what was there: exactly the valid names, each
      with the price of its last valid entry, its groups, and its other attributes as they were. */
  ghost predicate InSync(before: Models, cfg: Config, after: Models) {
    && (forall name :: name in after <==> Desired(cfg.models, name))
    && (forall i: nat :: LastValid(cfg.models, i) ==>
          AttributesOf(after, cfg.models[i].name) ==
          Refreshed(AttributesOf(before, cfg.models[i].name), cfg.groups, cfg.models[i]))
  }

  ghost function Undesired(models: Models, entries: seq<Entry>): set<Model> {
    set name | name in models && !Desired(entries, name)
  }

  ghost function Sync(models: Models, cfg: Config): Models {
    var registered := Register(models, cfg.groups, cfg.models);
    registered - Undesired(registered, cfg.models)
  }

  lemma DesiredSnoc(entries: seq<Entry>, name: string)
    requires entries != []
    ensures var e := entries[|entries| - 1];
            Desired(entries, name) <==> Desired(entries[..|entries| - 1], name) || (ValidEntry(e) && e.name == name)
  {
    var n := |entries| - 1;
    if Desired(entries[..n], name) {
      var i :| 0 <= i < n && ValidEntry(entries[..n][i]) && entries[..n][i].name == name;
      assert ValidEntry(entries[i]);
    }
    if i :| 0 <= i < |entries| && ValidEntry(entries[i]) && entries[i].name == name {
      assert i < n ==> entries[..n][i] == entries[i];
    }
  }

  lemma LastValidFront(entries: seq<Entry>, i: nat)
    requires LastValid(entries, i) && i < |entries| - 1
    ensures LastValid(entries[..|entries| - 1], i)
  {
    var front := entries[..|entries| - 1];
    assert forall j :: 0 <= j < |front| ==> front[j] == entries[j];
  }

  /** Registration refreshes exactly the valid entries' models, the last entry for a name winning. */
  lemma {:induction false} RegisterIsExact(models: Models, groups: seq<Group>, entries: seq<Entry>, name: string)
    ensures var r := Register(models, groups, entries);
            && (name in r <==> name in models || Desired(entries, name))
            && AttributesOf(r, name).others == AttributesOf(models, name).others
            && (!Desired(entries, name) ==> AttributesOf(r, name) == AttributesOf(models, name))
            && forall i: nat :: LastValid(entries, i) && entries[i].name == name ==>
                 AttributesOf(r, name) == Refreshed(AttributesOf(models, name), groups, entries[i])
  {
    if entries != [] {
      var front, e := entries[..|entries| - 1], entries[|entries| - 1];
      RegisterIsExact(models, groups, front, name);
      DesiredSnoc(entries, name);
      var r := Register(models, groups, entries);
      forall i: nat | LastValid(entries, i) && entries[i].name == name
        ensures AttributesOf(r, name) == Refreshed(AttributesOf(models, name), groups, entries[i])
      {
        if i < |entries| - 1 {
          LastValidFront(entries, i);
          assert front[i] == entries[i];
        }
      }
    }
  }

  lemma SyncIsExact(models: Models, cfg: Config)
    ensures InSync(models, cfg, Sync(models, cfg))
  {
    var after := Sync(models, cfg);
    forall name ensures name in after <==> Desired(cfg.models, name) {
      RegisterIsExact(models, cfg.groups, cfg.models, name);
    }
    forall i: nat | LastValid(cfg.models, i)
      ensures AttributesOf(after, cfg.models[i].name) ==
              Refreshed(AttributesOf(models, cfg.models[i].name), cfg.groups, cfg.models[i])
    {
      RegisterIsExact(models, cfg.groups, cfg.models, cfg.models[i].name);
      assert Desired(cfg.models, cfg.models[i].name);
    }
  }

  lemma {:induction false} DesiredHasLast(entries: seq<Entry>, name: string) returns (i: nat)
    requires Desired(entries, name)
    ensures LastValid(entries, i) && entries[i].name == name
  {
    var n := |entries| - 1;
    if ValidEntry(entries[n]) && entries[n].name == name {
      return n;
    }
    DesiredSnoc(entries, name);
    i := DesiredHasLast(entries[..n], name);
    assert entries[..n][i] == entries[i];
    forall j | i < j < |entries| && ValidEntry(entries[j]) ensures entries[j].name != entries[i].name {
      assert j < n ==> entries[..n][j] == entries[j];
    }
  }

  /** The file and the attributes kept from before determine the datastore: two stores in sync with the
      same file are the same. */
  lemma InSyncDetermines(before: Models, cfg: Config, a: Models, b: Models)
    requires InSync(before, cfg, a) && InSync(before, cfg, b)
    ensures a == b
  {
    forall name | name in a ensures name in b && a[name] == b[name] {
      var i := DesiredHasLast(cfg.models, name);
      assert AttributesOf(a, name) == AttributesOf(b, name);
    }
    assert a.Keys == b.Keys;
  }

  /** Syncing twice is syncing once. */
  lemma SyncIsIdempotent(models: Models, cfg: Config)
    ensures Sync(Sync(models, cfg), cfg) == Sync(models, cfg)
  {
    var once := Sync(models, cfg);
    SyncIsExact(models, cfg);
    SyncIsExact(once, cfg);
    InSyncDetermines(once, cfg, Sync(once, cfg), once);
  }

  /** Names, prices and groups after a sync do not depend on what was there before. */
  lemma SyncForgetsThePast(models: Models, models': Models, cfg: Config, name: Model)
    ensures name in Sync(models, cfg) <==> name in Sync(models', cfg)
    ensures name in Sync(models, cfg) ==>
              && Sync(models, cfg)[name].prices == Sync(models', cfg)[name].prices
              && Sync(models, cfg)[name].groups == Sync(models', cfg)[name].groups
              && Sync(models, cfg)[name].others == AttributesOf(models, name).others
  {
    SyncIsExact(models, cfg);
    SyncIsExact(models', cfg);
    if name in Sync(models, cfg) {
      var i := DesiredHasLast(cfg.models, name);
      assert AttributesOf(Sync(models, cfg), name) == Refreshed(AttributesOf(models, name), cfg.groups, cfg.models[i]);
      assert AttributesOf(Sync(models', cfg), name) == Refreshed(AttributesOf(models', name), cfg.groups, cfg.models[i]);
    }
  }

  // ---------- the loops ----------

  type Inverted = map<string, seq<string>>

  function At(m: Inverted, name: string): seq<string> { if name in m then m[name] else [] }

  /** The map holds exactly the non-empty memberships of named models, after these groups and part of the
      next one. */
  ghost predicate Inverts(m: Inverted, groups: seq<Group>, g: string, models: seq<string>) {
    forall name :: name != "" ==> InvertsAt(m, groups, g, models, name)
  }

  /** What Inverts says about one model. */
  ghost predicate InvertsAt(m: Inverted, groups: seq<Group>, g: string, models: seq<string>, name: string) {
    At(m, name) == Membership(groups, name) + Listings(g, models, name) && (name in m ==> m[name] != [])
  }

  lemma InvertOneAt(m: Inverted, groups: seq<Group>, g: string, models: seq<string>, last: string, name: string)
    requires InvertsAt(m, groups, g, models, name) && name != ""
    ensures InvertsAt(if last == "" then m else m[last := At(m, last) + [g]], groups, g, models + [last], name)
  {
    ListingsSnoc(g, models, last, name);
  }

  lemma InvertOne(m: Inverted, groups: seq<Group>, g: string, models: seq<string>, last: string)
    requires Inverts(m, groups, g, models)
    ensures Inverts(if last == "" then m else m[last := At(m, last) + [g]], groups, g, models + [last])
  {
    var r, models' := if last == "" then m else m[last := At(m, last) + [g]], models + [last];
    forall name | name != "" ensures InvertsAt(r, groups, g, models', name) {
      InvertOneAt(m, groups, g, models, last, name);
    }
  }

  lemma ListingsSnoc(g: string, models: seq<string>, last: string, name: string)
    ensures Listings(g, models + [last], name) == Listings(g, models, name) + (if last == name then [g] else [])
  {
    assert (models + [last])[..|models|] == models;
  }

  lemma FullyInverted(m: Inverted, groups: seq<Group>, name: string)
    requires Inverts(m, groups, "", []) && name != ""
    ensures name in m <==> GroupsOf(groups, name).Some?
    ensures name in m ==> GroupsOf(groups, name) == Some(m[name])
  {
    assert InvertsAt(m, groups, "", [], name);
    assert Membership(groups, name) + [] == Membership(groups, name);
  }

  method InvertGroup(ghost groups: seq<Group>, g: Group, m: Inverted) returns (r: Inverted)
    requires Inverts(m, groups, g.name, [])
    ensures Inverts(r, groups, g.name, g.models)
  {
    r := m;
    for i := 0 to |g.models|
      invariant Inverts(r, groups, g.name, g.models[..i])
    {
      var name := g.models[i];
      InvertOne(r, groups, g.name, g.models[..i], name);
      assert g.models[..i + 1] == g.models[..i] + [name];
      if name != "" {
        r := r[name := At(r, name) + [g.name]];
      }
    }
    assert g.models[..|g.models|] == g.models;
  }

  lemma InvertedGroup(m: Inverted, groups: seq<Group>, i: nat)
    requires i < |groups|
    requires Inverts(m, groups[..i], groups[i].name, if groups[i].name == "" then [] else groups[i].models)
    ensures Inverts(m, groups[..i + 1], "", [])
  {
    var after := groups[..i + 1];
    assert after[..i] == groups[..i];
    forall name | name != "" ensures InvertsAt(m, after, "", [], name) {
      assert InvertsAt(m, groups[..i], groups[i].name, if groups[i].name == "" then [] else groups[i].models, name);
    }
  }

  lemma SkippedGroup(m: Inverted, groups: seq<Group>, g: string)
    requires Inverts(m, groups, "", [])
    ensures Inverts(m, groups, g, [])
  {
    forall name | name != "" ensures InvertsAt(m, groups, g, [], name) {
      assert InvertsAt(m, groups, "", [], name);
    }
  }

  method InvertGroups(groups: seq<Group>) returns (m: Inverted)
    ensures forall name :: name != "" ==> (name in m <==> GroupsOf(groups, name).Some?)
    ensures forall name :: name != "" && name in m ==> GroupsOf(groups, name) == Some(m[name])
  {
    m := map[];
    for i := 0 to |groups|
      invariant Inverts(m, groups[..i], "", [])
    {
      var g := groups[i];
      SkippedGroup(m, groups[..i], g.name);
      if g.name == "" || |g.models| == 0 {
        assert |g.models| == 0 ==> g.models == [];
      } else {
        m := InvertGroup(groups[..i], g, m);
      }
      InvertedGroup(m, groups, i);
    }
    assert groups[..|groups|] == groups;
    forall name | name != ""
      ensures name in m <==> GroupsOf(groups, name).Some?
      ensures name in m ==> GroupsOf(groups, name) == Some(m[name])
    {
      FullyInverted(m, groups, name);
    }
  }

  class ModelConfigDataSource {
    const ds: Store

    /** json.Unmarshal into a ModelsConfig, None where it fails. */
    const parse: Bytes -> Option<Config>

    constructor (ds: Store, parse: Bytes -> Option<Config>)
      ensures this.ds == ds && this.parse == parse
    {
      this.ds, this.parse := ds, parse;
    }

    /** An empty or missing file is an empty configuration; a malformed one is refused. */
    function ConfigOf(data: Bytes): Option<Config> { if data == [] then Some(EmptyConfig) else parse(data) }

    /** One step of the registration loop. */
    method RegisterOne(e: Entry, groups: seq<Group>, membership: Inverted)
      requires ValidEntry(e)
      requires forall name :: name != "" ==> (name in membership <==> GroupsOf(groups, name).Some?)
      requires forall name :: name != "" && name in membership ==> GroupsOf(groups, name) == Some(membership[name])
      modifies ds
      ensures ds.models == old(ds.models)[e.name := Refreshed(AttributesOf(old(ds.models), e.name), groups, e)]
    {
      var a := ds.GetOrCreateModel(e.name);
      a := a.(prices := Some(ToTokenPrices(e)));
      if e.name in membership {
        a := a.(groups := Some(membership[e.name]));
      } else {
        a := a.(groups := None);
      }
      ds.PutAttributes(e.name, a);
    }

    method RegisterModels(cfg: Config, membership: Inverted) returns (desired: set<string>)
      requires forall name :: name != "" ==> (name in membership <==> GroupsOf(cfg.groups, name).Some?)
      requires forall name :: name != "" && name in membership ==> GroupsOf(cfg.groups, name) == Some(membership[name])
      modifies ds
      ensures ds.models == Register(old(ds.models), cfg.groups, cfg.models)
      ensures forall name :: name in desired <==> Desired(cfg.models, name)
    {
      desired := {};
      for i := 0 to |cfg.models|
        invariant ds.models == Register(old(ds.models), cfg.groups, cfg.models[..i])
        invariant forall name :: name in desired <==> Desired(cfg.models[..i], name)
      {
        var e := cfg.models[i];
        assert cfg.models[..i + 1][..i] == cfg.models[..i];
        forall name ensures Desired(cfg.models[..i + 1], name) <==>
                            Desired(cfg.models[..i], name) || (ValidEntry(e) && e.name == name) {
          DesiredSnoc(cfg.models[..i + 1], name);
        }
        if e.name == "" || e.inputPerMillion < 0.0 || e.outputPerMillion < 0.0 { continue; }
        desired := desired + {e.name};
        RegisterOne(e, cfg.groups, membership);
      }
      assert cfg.models[..|cfg.models|] == cfg.models;
    }

    method RemoveUndesired(entries: seq<Entry>, desired: set<string>)
      requires forall name :: name in desired <==> Desired(entries, name)
      modifies ds
      ensures ds.models == old(ds.models) - Undesired(old(ds.models), entries)
    {
      var listed := ds.GetModels((m, a) => true);
      for i := 0 to |listed|
        invariant ds.models == old(ds.models) - (set m | m in listed[..i] && m !in desired)
      {
        if listed[i] !in desired {
          ds.DeleteModel(listed[i]);
        }
      }
      assert listed[..|listed|] == listed;
    }

    /** Brings the datastore in sync with the file; a malformed file changes nothing. */
    method SyncModels(data: Bytes) returns (ok: bool)
      modifies ds
      ensures ok <==> ConfigOf(data).Some?
      ensures ok ==> ds.models == Sync(old(ds.models), ConfigOf(data).value)
      ensures ok ==> InSync(old(ds.models), ConfigOf(data).value, ds.models)
      ensures !ok ==> ds.models == old(ds.models)
    {
      var parsed := ConfigOf(data);
      if parsed.None? { return false; }
      var cfg := parsed.value;
      var membership := InvertGroups(cfg.groups);
      var desired := RegisterModels(cfg, membership);
      RemoveUndesired(cfg.models, desired);
      SyncIsExact(old(ds.models), cfg);
      ok := true;
    }
  }

  // ---------- runs ----------

  /** What happens to the datastore: a sync with a well-formed file, or an extractor that gets or creates a
      model and writes one of its own attributes. Malformed files change nothing. */
  datatype Step = SyncStep(cfg: Config) | Write(name: Model, key: string, value: Attribute)

  ghost function After(models: Models, step: Step): Models {
    match step
    case SyncStep(cfg) => Sync(models, cfg)
    case Write(name, key, value) =>
      var a := AttributesOf(models, name);
      models[name := a.(others := a.others[key := value])]
  }

  ghost function Run(steps: seq<Step>): Models {
    if steps == [] then map[] else After(Run(steps[..|steps| - 1]), steps[|steps| - 1])
  }

  /** The last file synced, the empty one before any. */
  function LastConfig(steps: seq<Step>): Config {
    if steps == [] then EmptyConfig
    else if steps[|steps| - 1].SyncStep? then steps[|steps| - 1].cfg
    else LastConfig(steps[..|steps| - 1])
  }

  /** The price is that of the file's last valid entry for the name, the groups are those of the file; other
      models are strays without either. */
  ghost predicate Reflects(models: Models, cfg: Config, name: Model) {
    && (Desired(cfg.models, name) ==>
          && name in models
          && models[name].groups == GroupsOf(cfg.groups, name)
          && exists i: nat :: LastValid(cfg.models, i) && cfg.models[i].name == name &&
                              models[name].prices == Some(ToTokenPrices(cfg.models[i])))
    && (!Desired(cfg.models, name) ==>
          AttributesOf(models, name).prices.None? && AttributesOf(models, name).groups.None?)
  }

  /** After every run the datastore reflects the last file synced. */
  lemma {:induction false} RunsReflectLastConfig(steps: seq<Step>, name: Model)
    ensures Reflects(Run(steps), LastConfig(steps), name)
  {
    if steps != [] {
      var before, step := Run(steps[..|steps| - 1]), steps[|steps| - 1];
      if step.SyncStep? {
        SyncIsExact(before, step.cfg);
        if Desired(step.cfg.models, name) {
          var i := DesiredHasLast(step.cfg.models, name);
          assert AttributesOf(Run(steps), name) == Refreshed(AttributesOf(before, name), step.cfg.groups, step.cfg.models[i]);
        }
      } else {
        RunsReflectLastConfig(steps[..|steps| - 1], name);
      }
    }
  }

  /** An extractor that records a model the file does not list leaves a candidate without prices; the next sync
      removes it. */
  lemma StrayModels(steps: seq<Step>, name: Model, key: string, value: Attribute)
    ensures var after := Run(steps + [Write(name, key, value)]);
            && name in after
            && (after[name].prices.None? <==> !Desired(LastConfig(steps).models, name))
  {
    var all := steps + [Write(name, key, value)];
    assert all[..|all| - 1] == steps;
    RunsReflectLastConfig(all, name);
  }
}

/** The model-group filter. */
module ModelGroupFilter {
  import opened Common
  import opened Json
  import opened Ranking
  import opened Datastore
  import opened ModelConfig
  import opened Messages
  import Selector

  const AUTO := "auto"
  const AUTO_GROUP := "auto/"

  /** What the request's "model" field asks for. */
  datatype Request = Everything | Named(model: Model) | InGroup(group: string) | Nothing

  function Asked(body: Object): Request {
    if "model" !in body || body["model"].Null? then Everything
    else if !body["model"].Str? then Nothing
    else
      var s := body["model"].s;
      if s == "" || s == AUTO then Everything
      else if !(AUTO_GROUP <= s) then Named(s)
      else if s == AUTO_GROUP then Nothing
      else InGroup(s[|AUTO_GROUP|..])
  }

  predicate MemberOf(a: Attributes, g: string) { a.groups.Some? && g in a.groups.value }

  /** The candidates that match, by what was asked. */
  predicate Matches(store: Models, body: Object, m: Model) {
    match Asked(body)
    case Everything => true
    case Named(n) => m == n
    case InGroup(g) => MemberOf(AttributesOf(store, m), g)
    case Nothing => false
  }

  /** The matching candidates, in their order. */
  function Matching(store: Models, body: Object, models: seq<Model>): seq<Model> {
    if models == [] then [] else
      var last := models[|models| - 1];
      Matching(store, body, models[..|models| - 1]) + (if Matches(store, body, last) then [last] else [])
  }

  /** What the filter keeps: the matching candidates, but a model asked for by name only once. */
  function Kept(store: Models, body: Object, models: seq<Model>): seq<Model> {
    if Asked(body).Named? then (if Asked(body).model in models then [Asked(body).model] else [])
    else Matching(store, body, models)
  }

  lemma {:induction false} MatchingMatch(store: Models, body: Object, models: seq<Model>, m: Model)
    ensures m in Matching(store, body, models) <==> m in models && Matches(store, body, m)
  {
    if models != [] {
      MatchingMatch(store, body, models[..|models| - 1], m);
      assert models == models[..|models| - 1] + [models[|models| - 1]];
    }
  }

  lemma KeptMatch(store: Models, body: Object, models: seq<Model>, m: Model)
    ensures m in Kept(store, body, models) <==> m in models && Matches(store, body, m)
  {
    MatchingMatch(store, body, models, m);
  }

  /** On the distinct candidates that a datastore yields, the filter keeps exactly the matching ones in order. */
  lemma KeptIsMatching(store: Models, body: Object, models: seq<Model>)
    requires Distinct(models)
    ensures Kept(store, body, models) == Matching(store, body, models)
  {
    if Asked(body).Named? && Asked(body).model in models {
      var k :| 0 <= k < |models| && models[k] == Asked(body).model;
      MatchingOne(store, body, models, k);
    } else if Asked(body).Named? {
      MatchingNone(store, body, models);
    }
  }

  /** By the request body: no model, null, "" and "auto" keep all; "auto/" and values that are no string keep
      none; a name outside "auto/" keeps that model; "auto/<g>" keeps the members of g. */
  lemma KeptByForm(store: Models, body: Object, models: seq<Model>, m: Model, s: string)
    requires m in models
    ensures "model" !in body ==> m in Kept(store, body, models)
    ensures "model" in body && !body["model"].Str? ==> (m in Kept(store, body, models) <==> body["model"] == Null)
    ensures "model" in body && body["model"] == Str(s) && (s == "" || s == "auto") ==> m in Kept(store, body, models)
    ensures "model" in body && body["model"] == Str("auto/") ==> m !in Kept(store, body, models)
    ensures "model" in body && body["model"] == Str(s) && s !in ["", "auto"] && !("auto/" <= s) ==>
              (m in Kept(store, body, models) <==> m == s)
    ensures "model" in body && s != "" && body["model"] == Str("auto/" + s) ==>
              (m in Kept(store, body, models) <==> MemberOf(AttributesOf(store, m), s))
  {
    KeptMatch(store, body, models, m);
    var t := AUTO_GROUP + s;
    assert t[|AUTO_GROUP|..] == s && AUTO_GROUP <= t && t[4] == '/';
    assert AUTO_GROUP <= AUTO_GROUP && |AUTO_GROUP| == 5 && |AUTO| == 4;
  }

  ghost predicate Distinct(models: seq<Model>) { forall i, j :: 0 <= i < j < |models| ==> models[i] != models[j] }

  lemma {:induction false} MatchingAll(store: Models, body: Object, models: seq<Model>)
    requires forall i :: 0 <= i < |models| ==> Matches(store, body, models[i])
    ensures Matching(store, body, models) == models
  {
    if models != [] {
      var front, last := models[..|models| - 1], models[|models| - 1];
      assert models == front + [last];
      MatchingAll(store, body, front);
    }
  }

  lemma {:induction false} MatchingNone(store: Models, body: Object, models: seq<Model>)
    requires forall i :: 0 <= i < |models| ==> !Matches(store, body, models[i])
    ensures Matching(store, body, models) == []
  {
    if models != [] {
      MatchingNone(store, body, models[..|models| - 1]);
    }
  }

  lemma {:induction false} MatchingOne(store: Models, body: Object, models: seq<Model>, k: nat)
    requires Distinct(models) && k < |models|
    requires forall i :: 0 <= i < |models| ==> (Matches(store, body, models[i]) <==> models[i] == models[k])
    ensures Matching(store, body, models) == [models[k]]
  {
    var front := models[..|models| - 1];
    if k < |front| {
      MatchingOne(store, body, front, k);
    } else {
      MatchingNone(store, body, front);
    }
  }

  method Filter(store: Models, body: Object, models: seq<Model>) returns (r: seq<Model>)
    ensures r == Kept(store, body, models)
    ensures Distinct(models) ==> r == Matching(store, body, models)
  {
    if Distinct(models) {
      KeptIsMatching(store, body, models);
    }
    if "model" in body && !body["model"].Str? && !body["model"].Null? {
      MatchingNone(store, body, models);
      return [];
    }
    var requested := StringAt(body, "model");
    if requested == "" || requested == AUTO {
      MatchingAll(store, body, models);
      return models;
    }
    if !(AUTO_GROUP <= requested) {
      for i := 0 to |models|
        invariant forall k :: 0 <= k < i ==> models[k] != requested
      {
        if models[i] == requested {
          return [models[i]];
        }
      }
      return [];
    }
    var group := requested[|AUTO_GROUP|..];
    if group == "" {
      MatchingNone(store, body, models);
      return [];
    }
    r := [];
    for i := 0 to |models|
      invariant r == Matching(store, body, models[..i])
    {
      assert models[..i + 1][..i] == models[..i];
      var groups := AttributesOf(store, models[i]).groups;
      if groups.Some? && group in groups.value {
        r := r + [models[i]];
      }
    }
    assert models[..|models|] == models;
  }

  /** After every run of syncs and extractor writes, "auto/<g>" on the datastore's models selects exactly the
      valid models that the last file lists under some group named g. */
  lemma GroupSelectsExactly(steps: seq<Step>, body: Object, models: seq<Model>, g: string, m: Model)
    requires g != "" && "model" in body && body["model"] == Str(AUTO_GROUP + g)
    requires forall n :: n in models <==> n in Run(steps)
    ensures m in Kept(Run(steps), body, models) <==>
            Desired(LastConfig(steps).models, m) && Lists(LastConfig(steps).groups, g, m)
  {
    var s := AUTO_GROUP + g;
    assert s[|AUTO_GROUP|..] == g && AUTO_GROUP <= s && s[4] == '/';
    assert Asked(body) == InGroup(g);
    KeptMatch(Run(steps), body, models, m);
    RunsReflectLastConfig(steps, m);
    MembershipInverts(LastConfig(steps).groups, m, g);
  }

  function AsPlugin(store: Models): Selector.Filter {
    Selector.Filter("model-group-name-filter", (q: Selector.Query, models: seq<Model>) => Kept(store, q.request.body, models))
  }

  /** As a plugin it returns some of the candidates it is given, as the pipeline expects. */
  lemma NarrowsCandidates(store: Models)
    ensures Selector.Narrows([AsPlugin(store)])
  {
    forall q: Selector.Query, models, m | m in AsPlugin(store).keep(q, models) ensures m in models {
      KeptMatch(store, q.request.body, models, m);
    }
  }
}
