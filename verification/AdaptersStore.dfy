/** The index from LoRA adapters to base models kept from ConfigMaps. */
module AdaptersStore {
  import opened Common
  import opened Sums
  import Text

  const BASE_MODEL_KEY := "baseModel"
  const ADAPTERS_KEY := "adapters"

  datatype NamespacedName = NamespacedName(namespace: string, name: string)

  datatype ConfigMap = ConfigMap(
    key: NamespacedName,
    data: map<string, string>,
    deleting: bool,
    managed: bool)

  /** The object a failed `Get` leaves behind. */
  const EmptyConfigMap := ConfigMap(NamespacedName("", ""), map[], false, false)

  type Yaml = string -> Option<seq<string>>

  // ---------- parsing ----------

  function ParseBaseModel(c: ConfigMap): (r: Option<string>)
    ensures r.Some? <==> BASE_MODEL_KEY in c.data && !Text.Blank(c.data[BASE_MODEL_KEY])
    ensures r.Some? ==> r.value != "" && r.value == Text.TrimSpace(c.data[BASE_MODEL_KEY])
  {
    assert BASE_MODEL_KEY in c.data ==> (Text.Blank(c.data[BASE_MODEL_KEY]) <==> Text.TrimSpace(c.data[BASE_MODEL_KEY]) == "")
    by {
      if BASE_MODEL_KEY in c.data { Text.TrimIsEmptyIffBlank(c.data[BASE_MODEL_KEY]); }
    }
    if BASE_MODEL_KEY !in c.data || Text.TrimSpace(c.data[BASE_MODEL_KEY]) == "" then None
    else Some(Text.TrimSpace(c.data[BASE_MODEL_KEY]))
  }

  /** The non-empty names, trimmed. */
  function TrimmedNames(names: seq<string>): (r: set<string>)
    ensures forall n :: n in r <==> n != "" && exists i :: 0 <= i < |names| && Text.TrimSpace(names[i]) == n
  {
    if names == [] then {} else
      var n := Text.TrimSpace(names[0]);
      assert forall i :: 0 < i < |names| ==> names[i] == names[1..][i - 1];
      if n == "" then TrimmedNames(names[1..]) else {n} + TrimmedNames(names[1..])
  }

  /** What one ConfigMap contributes: a base model and its adapters. */
  datatype Entry = Entry(base: string, adapters: set<string>)

  /** The adapters section is there and not blank. */
  predicate HasAdapters(c: ConfigMap) { ADAPTERS_KEY in c.data && Text.TrimSpace(c.data[ADAPTERS_KEY]) != "" }

  /** Refused without a base model, or with an adapters section that is no list of names. */
  function ParseConfigMap(yaml: Yaml, c: ConfigMap): (r: Option<Entry>)
    ensures r.Some? <==> ParseBaseModel(c).Some? && (HasAdapters(c) ==> yaml(c.data[ADAPTERS_KEY]).Some?)
    ensures r.Some? ==> r.value.base != "" && ParseBaseModel(c) == Some(r.value.base)
    ensures r.Some? && !HasAdapters(c) ==> r.value.adapters == {}
    ensures r.Some? && HasAdapters(c) ==> forall n :: n in r.value.adapters <==>
              n != "" && exists i :: 0 <= i < |yaml(c.data[ADAPTERS_KEY]).value| &&
                                     Text.TrimSpace(yaml(c.data[ADAPTERS_KEY]).value[i]) == n
  {
    var base := ParseBaseModel(c);
    if base.None? then None
    else if ADAPTERS_KEY !in c.data || Text.TrimSpace(c.data[ADAPTERS_KEY]) == "" then Some(Entry(base.value, {}))
    else
      var names := yaml(c.data[ADAPTERS_KEY]);
      if names.None? then None else Some(Entry(base.value, TrimmedNames(names.value)))
  }

  // ---------- the store as a value ----------

  datatype Store = Store(
    lora: map<string, string>,
    configmaps: map<NamespacedName, set<string>>,
    baseModels: map<string, int>)

  const EmptyStore := Store(map[], map[], map[])

  function CountOf(m: map<string, int>, b: string): int { if b in m then m[b] else 0 }

  /** Every name in `names` mapped to `base`, the other entries as they were. */
  function Assign(m: map<string, string>, names: set<string>, base: string): map<string, string> {
    map a | a in m.Keys + names :: if a in names then base else m[a]
  }

  function Update(s: Store, key: NamespacedName, e: Entry): Store {
    var previous := if key in s.configmaps then s.configmaps[key] else {};
    Store(
      Assign(s.lora, e.adapters, e.base) - (previous - e.adapters),
      s.configmaps[key := e.adapters],
      if key in s.configmaps then s.baseModels else s.baseModels[e.base := CountOf(s.baseModels, e.base) + 1])
  }

  /** `carried` is the base model parsed from the object handed to the delete. */
  function Delete(s: Store, key: NamespacedName, carried: Option<string>): Store {
    if key !in s.configmaps then s else
      Store(
        s.lora - s.configmaps[key],
        s.configmaps - {key},
        if carried.None? then s.baseModels
        else if CountOf(s.baseModels, carried.value) == 1 then s.baseModels - {carried.value}
        else s.baseModels[carried.value := CountOf(s.baseModels, carried.value) - 1])
  }

  function GetBaseModel(s: Store, name: string): string {
    var n := Text.TrimSpace(name);
    if n in s.lora then s.lora[n] else if n in s.baseModels then n else ""
  }

  // ---------- the live ConfigMaps, and what it means to agree with them ----------

  type Live = map<NamespacedName, Entry>

  ghost function Users(live: Live, base: string): set<NamespacedName> {
    set k | k in live && live[k].base == base
  }

  ghost predicate Lists(live: Live, k: NamespacedName, adapter: string) {
    k in live && adapter in live[k].adapters
  }

  /** The counter of b is right. */
  ghost predicate CountIsRight(counts: map<string, int>, live: Live, b: string) {
    CountOf(counts, b) == |Users(live, b)| && (b in counts <==> Users(live, b) != {})
  }

  ghost predicate CountsAgree(s: Store, live: Live) {
    forall b :: CountIsRight(s.baseModels, live, b)
  }

  ghost predicate AdaptersAgree(s: Store, live: Live) {
    && (forall a, k :: Lists(live, k, a) ==> a in s.lora)
    && (forall a :: a in s.lora ==> exists k :: Lists(live, k, a) && live[k].base == s.lora[a])
  }

  ghost predicate Agrees(s: Store, live: Live) {
    && s.configmaps.Keys == live.Keys
    && (forall k :: k in live ==> s.configmaps[k] == live[k].adapters)
    && CountsAgree(s, live)
    && AdaptersAgree(s, live)
  }

  /** A direct search over the live ConfigMaps: an adapter resolves to the base model of a ConfigMap
      listing it, a base model to itself, anything else to nothing. */
  ghost predicate Resolves(live: Live, name: string, result: string) {
    if exists k :: Lists(live, k, name) then exists k :: Lists(live, k, name) && result == live[k].base
    else if Users(live, name) != {} then result == name
    else result == ""
  }

  ghost predicate AdaptersUnambiguous(live: Live) {
    forall a, k, l :: Lists(live, k, a) && Lists(live, l, a) ==> live[k].base == live[l].base
  }

  lemma LookupIsSearch(s: Store, live: Live, name: string)
    requires Agrees(s, live)
    ensures Resolves(live, Text.TrimSpace(name), GetBaseModel(s, name))
  {
    assert CountIsRight(s.baseModels, live, Text.TrimSpace(name));
  }

  /** The search has one answer unless the same adapter is listed under two base models. */
  lemma SearchIsDetermined(live: Live, name: string, r: string, q: string)
    requires AdaptersUnambiguous(live) && Resolves(live, name, r) && Resolves(live, name, q)
    ensures r == q
  {
  }

  // ---------- exactly when an update or a delete keeps the agreement ----------

  /** No other live ConfigMap lists the adapter. */
  ghost predicate OnlyHere(live: Live, key: NamespacedName, adapter: string) {
    forall k :: k != key ==> !Lists(live, k, adapter)
  }

  /** A known ConfigMap keeps its base model, and drops only adapters no other ConfigMap lists. */
  ghost predicate UpdateGuard(live: Live, key: NamespacedName, e: Entry) {
    key in live ==>
      live[key].base == e.base && forall a :: a in live[key].adapters - e.adapters ==> OnlyHere(live, key, a)
  }

  /** The deleted object still carries its base model, and no other ConfigMap lists its adapters. */
  ghost predicate DeleteGuard(live: Live, key: NamespacedName, carried: Option<string>) {
    key in live ==>
      carried == Some(live[key].base) && forall a :: a in live[key].adapters ==> OnlyHere(live, key, a)
  }

  lemma UsersOfUpdate(live: Live, key: NamespacedName, e: Entry, b: string)
    ensures Users(live[key := e], b) ==
            if e.base == b then Users(live, b) + {key} else Users(live, b) - {key}
    ensures |Users(live[key := e], b)| ==
            |Users(live, b)| + (if e.base == b then 1 else 0) - (if key in live && live[key].base == b then 1 else 0)
  {
    assert Users(live[key := e], b) == if e.base == b then Users(live, b) + {key} else Users(live, b) - {key};
  }

  lemma UsersOfDelete(live: Live, key: NamespacedName, b: string)
    ensures Users(live - {key}, b) == Users(live, b) - {key}
    ensures |Users(live - {key}, b)| == |Users(live, b)| - (if key in live && live[key].base == b then 1 else 0)
  {
    assert Users(live - {key}, b) == Users(live, b) - {key};
  }

  lemma UpdateCountsAt(s: Store, live: Live, key: NamespacedName, e: Entry, b: string)
    requires Agrees(s, live) && (key in live ==> live[key].base == e.base)
    ensures CountIsRight(Update(s, key, e).baseModels, live[key := e], b)
  {
    UsersOfUpdate(live, key, e, b);
    assert CountIsRight(s.baseModels, live, b);
  }

  lemma UpdateCounts(s: Store, live: Live, key: NamespacedName, e: Entry)
    requires Agrees(s, live)
    ensures CountsAgree(Update(s, key, e), live[key := e]) <==> (key in live ==> live[key].base == e.base)
  {
    if key in live ==> live[key].base == e.base {
      var n, live' := Update(s, key, e), live[key := e];
      forall b ensures CountIsRight(n.baseModels, live', b) {
        UpdateCountsAt(s, live, key, e, b);
      }
    } else {
      UsersOfUpdate(live, key, e, e.base);
      assert CountIsRight(s.baseModels, live, e.base);
      assert !CountIsRight(Update(s, key, e).baseModels, live[key := e], e.base);
    }
  }

  lemma UpdateAdapters(s: Store, live: Live, key: NamespacedName, e: Entry)
    requires Agrees(s, live)
    ensures AdaptersAgree(Update(s, key, e), live[key := e]) <==>
            (key in live ==> forall a :: a in live[key].adapters - e.adapters ==> OnlyHere(live, key, a))
  {
    var n, live' := Update(s, key, e), live[key := e];
    var guard := key in live ==> forall a :: a in live[key].adapters - e.adapters ==> OnlyHere(live, key, a);
    assert forall k, a :: k != key ==> (Lists(live', k, a) <==> Lists(live, k, a));
    if guard {
      forall a | a in n.lora ensures exists k :: Lists(live', k, a) && live'[k].base == n.lora[a] {
        if a in e.adapters {
          assert Lists(live', key, a);
        } else {
          var k :| Lists(live, k, a) && live[k].base == s.lora[a];
          assert Lists(live', k, a);
        }
      }
    } else {
      var a :| a in live[key].adapters - e.adapters && !OnlyHere(live, key, a);
      var k :| k != key && Lists(live, k, a);
      assert Lists(live', k, a) && a !in n.lora;
    }
  }

  lemma UpdateAgreesExactly(s: Store, live: Live, key: NamespacedName, e: Entry)
    requires Agrees(s, live)
    ensures Agrees(Update(s, key, e), live[key := e]) <==> UpdateGuard(live, key, e)
  {
    UpdateCounts(s, live, key, e);
    UpdateAdapters(s, live, key, e);
  }

  lemma DeleteCountsAt(s: Store, live: Live, key: NamespacedName, b: string)
    requires Agrees(s, live) && key in live
    ensures CountIsRight(Delete(s, key, Some(live[key].base)).baseModels, live - {key}, b)
  {
    UsersOfDelete(live, key, b);
    assert CountIsRight(s.baseModels, live, b);
  }

  lemma DeleteCounts(s: Store, live: Live, key: NamespacedName, carried: Option<string>)
    requires Agrees(s, live) && key in live
    ensures CountsAgree(Delete(s, key, carried), live - {key}) <==> carried == Some(live[key].base)
  {
    if carried == Some(live[key].base) {
      forall b ensures CountIsRight(Delete(s, key, carried).baseModels, live - {key}, b) {
        DeleteCountsAt(s, live, key, b);
      }
    } else {
      UsersOfDelete(live, key, live[key].base);
      assert CountIsRight(s.baseModels, live, live[key].base);
      assert !CountIsRight(Delete(s, key, carried).baseModels, live - {key}, live[key].base);
    }
  }

  lemma DeleteAdapters(s: Store, live: Live, key: NamespacedName, carried: Option<string>)
    requires Agrees(s, live) && key in live
    ensures AdaptersAgree(Delete(s, key, carried), live - {key}) <==>
            forall a :: a in live[key].adapters ==> OnlyHere(live, key, a)
  {
    var n, live' := Delete(s, key, carried), live - {key};
    assert forall k, a :: Lists(live', k, a) <==> k != key && Lists(live, k, a);
    if forall a :: a in live[key].adapters ==> OnlyHere(live, key, a) {
      forall a | a in n.lora ensures exists k :: Lists(live', k, a) && live'[k].base == n.lora[a] {
        var k :| Lists(live, k, a) && live[k].base == s.lora[a];
        assert Lists(live', k, a);
      }
    } else {
      var a :| a in live[key].adapters && !OnlyHere(live, key, a);
      var k :| k != key && Lists(live, k, a);
      assert Lists(live', k, a) && a !in n.lora;
    }
  }

  lemma DeleteAgreesExactly(s: Store, live: Live, key: NamespacedName, carried: Option<string>)
    requires Agrees(s, live)
    ensures Agrees(Delete(s, key, carried), live - {key}) <==> DeleteGuard(live, key, carried)
  {
    if key in live {
      DeleteCounts(s, live, key, carried);
      DeleteAdapters(s, live, key, carried);
    } else {
      assert live - {key} == live;
    }
  }

  // ---------- whole runs ----------

  datatype Op =
    | Put(key: NamespacedName, entry: Entry)
    | Drop(key: NamespacedName, carried: Option<string>)

  function Perform(s: Store, op: Op): Store {
    match op
    case Put(key, e) => Update(s, key, e)
    case Drop(key, carried) => Delete(s, key, carried)
  }

  ghost function Follow(live: Live, op: Op): Live {
    match op
    case Put(key, e) => live[key := e]
    case Drop(key, _) => live - {key}
  }

  ghost predicate Guard(live: Live, op: Op) {
    match op
    case Put(key, e) => UpdateGuard(live, key, e)
    case Drop(key, carried) => DeleteGuard(live, key, carried)
  }

  ghost predicate Guarded(live: Live, ops: seq<Op>)
    decreases |ops|
  {
    ops == [] || (Guard(live, ops[0]) && Guarded(Follow(live, ops[0]), ops[1..]))
  }

  function PerformAll(s: Store, ops: seq<Op>): Store
    decreases |ops|
  {
    if ops == [] then s else PerformAll(Perform(s, ops[0]), ops[1..])
  }

  ghost function FollowAll(live: Live, ops: seq<Op>): Live
    decreases |ops|
  {
    if ops == [] then live else FollowAll(Follow(live, ops[0]), ops[1..])
  }

  lemma {:induction false} GuardedRunAgrees(s: Store, live: Live, ops: seq<Op>)
    requires Agrees(s, live) && Guarded(live, ops)
    ensures Agrees(PerformAll(s, ops), FollowAll(live, ops))
    decreases |ops|
  {
    if ops != [] {
      match ops[0] {
        case Put(key, e) => UpdateAgreesExactly(s, live, key, e);
        case Drop(key, carried) => DeleteAgreesExactly(s, live, key, carried);
      }
      GuardedRunAgrees(Perform(s, ops[0]), Follow(live, ops[0]), ops[1..]);
    }
  }

  /** The store refines a scan: after any guarded run every lookup is the direct search over the ConfigMaps
      that are live, and each base model's counter is the number of ConfigMaps using it. */
  lemma StoreRefinesScan(ops: seq<Op>, name: string)
    requires Guarded(map[], ops)
    ensures var live := FollowAll(map[], ops);
            var s := PerformAll(EmptyStore, ops);
            && Resolves(live, Text.TrimSpace(name), GetBaseModel(s, name))
            && forall b :: CountOf(s.baseModels, b) == |Users(live, b)|
  {
    var live, s := FollowAll(map[], ops), PerformAll(EmptyStore, ops);
    EmptyAgrees();
    GuardedRunAgrees(EmptyStore, map[], ops);
    LookupIsSearch(s, live, name);
    forall b ensures CountOf(s.baseModels, b) == |Users(live, b)| {
      assert CountIsRight(s.baseModels, live, b);
    }
  }

  lemma EmptyAgrees()
    ensures Agrees(EmptyStore, map[])
  {
    forall b ensures CountIsRight(EmptyStore.baseModels, map[], b) {
      assert Users(map[], b) == {};
    }
  }

  /** One step outside the guard: the very next state differs. */
  lemma UnguardedStepDisagrees(s: Store, live: Live, op: Op)
    requires Agrees(s, live) && !Guard(live, op)
    ensures !Agrees(Perform(s, op), Follow(live, op))
  {
    match op
    case Put(key, e) => UpdateAgreesExactly(s, live, key, e);
    case Drop(key, carried) => DeleteAgreesExactly(s, live, key, carried);
  }

  /** The store agrees with the live ConfigMaps after every operation of the run. */
  ghost predicate AgreesThroughout(s: Store, live: Live, ops: seq<Op>)
    decreases |ops|
  {
    Agrees(s, live) && (ops == [] || AgreesThroughout(Perform(s, ops[0]), Follow(live, ops[0]), ops[1..]))
  }

  /** Exactly the guarded runs keep the store in agreement all the way. */
  lemma {:induction false} AgreesThroughoutIffGuarded(s: Store, live: Live, ops: seq<Op>)
    requires Agrees(s, live)
    ensures AgreesThroughout(s, live, ops) <==> Guarded(live, ops)
    decreases |ops|
  {
    if ops != [] {
      if Guard(live, ops[0]) {
        match ops[0] {
          case Put(key, e) => UpdateAgreesExactly(s, live, key, e);
          case Drop(key, carried) => DeleteAgreesExactly(s, live, key, carried);
        }
        AgreesThroughoutIffGuarded(Perform(s, ops[0]), Follow(live, ops[0]), ops[1..]);
      } else {
        UnguardedStepDisagrees(s, live, ops[0]);
      }
    }
  }

  /** A ConfigMap that changes its base model: the new base model is unknown to the store, the old one lingers. */
  lemma ChangedBaseModelIsLost()
    ensures var k := NamespacedName("ns", "cm");
            var ops := [Put(k, Entry("old", {})), Put(k, Entry("new", {}))];
            var s := PerformAll(EmptyStore, ops);
            GetBaseModel(s, "new") == "" && GetBaseModel(s, "old") == "old"
  {
    var k := NamespacedName("ns", "cm");
    var s1 := Update(EmptyStore, k, Entry("old", {}));
    var ops := [Put(k, Entry("old", {})), Put(k, Entry("new", {}))];
    assert ops[1..] == [Put(k, Entry("new", {}))];
    var s2 := Update(s1, k, Entry("new", {}));
    assert PerformAll(s1, ops[1..]) == PerformAll(s2, []);
    assert PerformAll(EmptyStore, ops) == s2;
    assert k in s1.configmaps;
    Text.TrimOfPlain("new");
    Text.TrimOfPlain("old");
  }

  // ---------- conservation, without any guard ----------

  ghost function Counter(m: map<string, int>): string -> int { b => CountOf(m, b) }

  ghost function Total(m: map<string, int>): int { Sum(m.Keys, Counter(m)) }

  ghost predicate Conserved(s: Store) {
    && Total(s.baseModels) == |s.configmaps|
    && Covered(s.lora, s.configmaps)
  }

  lemma SumOfAdded(m: map<string, int>, b: string, v: int)
    ensures Total(m[b := v]) == Total(m) + v - CountOf(m, b)
  {
    var n := m[b := v];
    SumRemove(n.Keys, Counter(n), b);
    if b in m {
      SumRemove(m.Keys, Counter(m), b);
      assert n.Keys - {b} == m.Keys - {b};
    } else {
      assert n.Keys - {b} == m.Keys;
    }
    SumCongruent(m.Keys - {b}, Counter(m), Counter(n));
    assert b !in m ==> m.Keys - {b} == m.Keys;
  }

  lemma SumOfRemoved(m: map<string, int>, b: string)
    requires b in m
    ensures Total(m - {b}) == Total(m) - m[b]
  {
    SumRemove(m.Keys, Counter(m), b);
    assert (m - {b}).Keys == m.Keys - {b};
    SumCongruent(m.Keys - {b}, Counter(m), Counter(m - {b}));
  }

  ghost predicate Covered(lora: map<string, string>, configmaps: map<NamespacedName, set<string>>) {
    forall a :: a in lora ==> exists k :: k in configmaps && a in configmaps[k]
  }

  lemma PutCovers(s: Store, key: NamespacedName, e: Entry)
    requires Covered(s.lora, s.configmaps)
    ensures Covered(Update(s, key, e).lora, Update(s, key, e).configmaps)
  {
    var n := Update(s, key, e);
    forall a | a in n.lora ensures exists k :: k in n.configmaps && a in n.configmaps[k] {
      if a in e.adapters {
        assert a in n.configmaps[key];
      } else {
        var k :| k in s.configmaps && a in s.configmaps[k];
        assert k in n.configmaps && a in n.configmaps[k];
      }
    }
  }

  lemma PutConserves(s: Store, key: NamespacedName, e: Entry)
    requires Conserved(s)
    ensures Conserved(Update(s, key, e))
  {
    PutCovers(s, key, e);
    PutTracks(s, key, e);
    PutCounts(s, key, e);
  }

  lemma PutTracks(s: Store, key: NamespacedName, e: Entry)
    ensures |Update(s, key, e).configmaps| == |s.configmaps| + if key in s.configmaps then 0 else 1
  {
    var before, after := s.configmaps.Keys, s.configmaps[key := e.adapters].Keys;
    assert after == before + {key};
    assert |s.configmaps[key := e.adapters]| == |after| && |s.configmaps| == |before|;
  }

  lemma PutCounts(s: Store, key: NamespacedName, e: Entry)
    ensures Total(Update(s, key, e).baseModels) == Total(s.baseModels) + if key in s.configmaps then 0 else 1
  {
    if key !in s.configmaps {
      SumOfAdded(s.baseModels, e.base, CountOf(s.baseModels, e.base) + 1);
    }
  }

  lemma DropCovers(s: Store, key: NamespacedName, carried: Option<string>)
    requires Covered(s.lora, s.configmaps)
    ensures Covered(Delete(s, key, carried).lora, Delete(s, key, carried).configmaps)
  {
    var n := Delete(s, key, carried);
    forall a | a in n.lora ensures exists k :: k in n.configmaps && a in n.configmaps[k] {
      var k :| k in s.configmaps && a in s.configmaps[k];
      assert k in n.configmaps && a in n.configmaps[k];
    }
  }

  lemma DropConserves(s: Store, key: NamespacedName, base: string)
    requires Conserved(s)
    ensures Conserved(Delete(s, key, Some(base)))
  {
    DropCovers(s, key, Some(base));
    DropTracks(s, key, Some(base));
    DropCounts(s, key, base);
  }

  lemma DropTracks(s: Store, key: NamespacedName, carried: Option<string>)
    ensures |Delete(s, key, carried).configmaps| == |s.configmaps| - if key in s.configmaps then 1 else 0
  {
    if key in s.configmaps {
      var before, after := s.configmaps.Keys, (s.configmaps - {key}).Keys;
      assert after == before - {key};
      assert |s.configmaps - {key}| == |after| && |s.configmaps| == |before|;
    }
  }

  lemma DropCounts(s: Store, key: NamespacedName, base: string)
    ensures Total(Delete(s, key, Some(base)).baseModels) ==
            Total(s.baseModels) - if key in s.configmaps then 1 else 0
  {
    if key in s.configmaps {
      if CountOf(s.baseModels, base) == 1 {
        SumOfRemoved(s.baseModels, base);
      } else {
        SumOfAdded(s.baseModels, base, CountOf(s.baseModels, base) - 1);
      }
    }
  }

  /** For every run whose deletes carry some base model - guarded or not - the reference counts add up to
      the number of tracked ConfigMaps, and every mapped adapter is in some tracked ConfigMap's set. */
  lemma {:induction false} RefCountsAreConserved(s: Store, ops: seq<Op>)
    requires Conserved(s)
    requires forall i :: 0 <= i < |ops| && ops[i].Drop? ==> ops[i].carried.Some?
    ensures Conserved(PerformAll(s, ops))
    decreases |ops|
  {
    if ops != [] {
      match ops[0] {
        case Put(key, e) => PutConserves(s, key, e);
        case Drop(key, carried) => DropConserves(s, key, carried.value);
      }
      RefCountsAreConserved(Perform(s, ops[0]), ops[1..]);
    }
  }

  lemma EmptyStoreIsConserved()
    ensures Conserved(EmptyStore)
  {
  }

  // ---------- the reconciler ----------

  /** The API server's answer to a reconciliation's `Get`. */
  datatype Answer =
    | Missing
    | Unavailable
    | Present(data: map<string, string>, deleting: bool, managed: bool)

  /** One reconciliation: the ConfigMap asked for, and the answer. */
  datatype Request = Request(key: NamespacedName, answer: Answer)

  /** The object the reconciler goes on with; after NotFound it is empty, and not even named. */
  function Fetched(r: Request): ConfigMap {
    if r.answer.Present? then ConfigMap(r.key, r.answer.data, r.answer.deleting, r.answer.managed) else EmptyConfigMap
  }

  /** NotFound, being deleted and no longer managed all lead to a delete. */
  predicate Deletes(r: Request) { r.answer.Missing? || (r.answer.Present? && (r.answer.deleting || !r.answer.managed)) }

  function Reconcile(yaml: Yaml, s: Store, r: Request): Store {
    var c := Fetched(r);
    if r.answer.Unavailable? then s
    else if Deletes(r) then Delete(s, c.key, ParseBaseModel(c))
    else
      var e := ParseConfigMap(yaml, c);
      if e.None? then s else Update(s, c.key, e.value)
  }

  function ReconcileAll(yaml: Yaml, s: Store, rs: seq<Request>): Store
    decreases |rs|
  {
    if rs == [] then s else ReconcileAll(yaml, Reconcile(yaml, s, rs[0]), rs[1..])
  }

  /** What the API server has: managed ConfigMaps that parse. An error says nothing new. */
  ghost function Observe(yaml: Yaml, live: Live, r: Request): Live {
    if r.answer.Unavailable? then live
    else if Deletes(r) || ParseConfigMap(yaml, Fetched(r)).None? then live - {r.key}
    else live[r.key := ParseConfigMap(yaml, Fetched(r)).value]
  }

  /** When a reconciliation does right by what it finds: an update or delete within its guard; and NotFound, or
      an object that does not parse, only for a ConfigMap that is not tracked. */
  ghost predicate ReconcileGuard(yaml: Yaml, live: Live, r: Request) {
    match r.answer
    case Unavailable => true
    case Missing => r.key !in live && EmptyConfigMap.key !in live
    case Present(_, _, _) =>
      if Deletes(r) then DeleteGuard(live, r.key, ParseBaseModel(Fetched(r)))
      else if ParseConfigMap(yaml, Fetched(r)).Some? then UpdateGuard(live, r.key, ParseConfigMap(yaml, Fetched(r)).value)
      else r.key !in live
  }

  /** A store left as it was agrees without a ConfigMap exactly when it did not track it. */
  lemma UntouchedAgreesExactly(s: Store, live: Live, key: NamespacedName)
    requires Agrees(s, live)
    ensures Agrees(s, live - {key}) <==> key !in live
  {
    if key !in live {
      assert live - {key} == live;
    } else {
      assert key in s.configmaps.Keys && key !in (live - {key}).Keys;
    }
  }

  /** NotFound asks for the deletion of the unnamed ConfigMap. */
  lemma MissingAgreesExactly(s: Store, live: Live, key: NamespacedName)
    requires Agrees(s, live)
    ensures Agrees(Delete(s, EmptyConfigMap.key, None), live - {key}) <==> key !in live && EmptyConfigMap.key !in live
  {
    var unnamed := EmptyConfigMap.key;
    if unnamed !in live {
      UntouchedAgreesExactly(s, live, key);
    } else if key == unnamed {
      DeleteAgreesExactly(s, live, unnamed, None);
    } else {
      assert unnamed in (live - {key}).Keys && unnamed !in Delete(s, unnamed, None).configmaps.Keys;
    }
  }

  /** Exactly when one reconciliation keeps the store in agreement with the API server. */
  lemma ReconcileAgreesExactly(yaml: Yaml, s: Store, live: Live, r: Request)
    requires Agrees(s, live)
    ensures Agrees(Reconcile(yaml, s, r), Observe(yaml, live, r)) <==> ReconcileGuard(yaml, live, r)
  {
    match r.answer
    case Unavailable =>
    case Missing => MissingAgreesExactly(s, live, r.key);
    case Present(_, _, _) =>
      var c := Fetched(r);
      if Deletes(r) {
        DeleteAgreesExactly(s, live, r.key, ParseBaseModel(c));
      } else if ParseConfigMap(yaml, c).Some? {
        UpdateAgreesExactly(s, live, r.key, ParseConfigMap(yaml, c).value);
      } else {
        UntouchedAgreesExactly(s, live, r.key);
      }
  }

  /** What one reconciliation does to the tracked ConfigMaps, by the answer: an object being deleted or no longer
      managed ends untracked, one that is there and parses ends tracked with its adapters, anything else changes
      nothing; other ConfigMaps are left alone. */
  lemma ReconcileByAnswer(yaml: Yaml, s: Store, key: NamespacedName, data: map<string, string>, deleting: bool, managed: bool)
    ensures var r := Request(key, Present(data, deleting, managed));
            var n, e := Reconcile(yaml, s, r), ParseConfigMap(yaml, ConfigMap(key, data, deleting, managed));
            && (deleting || !managed ==> key !in n.configmaps)
            && (!deleting && managed && e.Some? ==> key in n.configmaps && n.configmaps[key] == e.value.adapters)
            && (!deleting && managed && e.None? ==> n == s)
            && n.configmaps - {key} == s.configmaps - {key}
            && Reconcile(yaml, s, Request(key, Unavailable)) == s
  {
  }

  /** The store agrees with the API server after every reconciliation. */
  ghost predicate ReconciledThroughout(yaml: Yaml, s: Store, live: Live, rs: seq<Request>)
    decreases |rs|
  {
    && Agrees(s, live)
    && (rs == [] || ReconciledThroughout(yaml, Reconcile(yaml, s, rs[0]), Observe(yaml, live, rs[0]), rs[1..]))
  }

  ghost predicate ReconcilesGuarded(yaml: Yaml, live: Live, rs: seq<Request>)
    decreases |rs|
  {
    rs == [] || (ReconcileGuard(yaml, live, rs[0]) && ReconcilesGuarded(yaml, Observe(yaml, live, rs[0]), rs[1..]))
  }

  lemma {:induction false} ReconciledIffGuardedFrom(yaml: Yaml, s: Store, live: Live, rs: seq<Request>)
    requires Agrees(s, live)
    ensures ReconciledThroughout(yaml, s, live, rs) <==> ReconcilesGuarded(yaml, live, rs)
    decreases |rs|
  {
    if rs != [] {
      ReconcileAgreesExactly(yaml, s, live, rs[0]);
      if ReconcileGuard(yaml, live, rs[0]) {
        ReconciledIffGuardedFrom(yaml, Reconcile(yaml, s, rs[0]), Observe(yaml, live, rs[0]), rs[1..]);
      }
    }
  }

  /** For every run of reconciliations, whatever the API server answers: the store agrees with it all the way
      exactly when every reconciliation meets its guard. */
  lemma ReconciledIffGuarded(yaml: Yaml, rs: seq<Request>)
    ensures ReconciledThroughout(yaml, EmptyStore, map[], rs) <==> ReconcilesGuarded(yaml, map[], rs)
  {
    EmptyAgrees();
    ReconciledIffGuardedFrom(yaml, EmptyStore, map[], rs);
  }

  lemma {:induction false} UnnamedIsNeverTracked(yaml: Yaml, s: Store, rs: seq<Request>)
    requires EmptyConfigMap.key !in s.configmaps
    requires forall i :: 0 <= i < |rs| ==> rs[i].key.name != ""
    ensures EmptyConfigMap.key !in ReconcileAll(yaml, s, rs).configmaps
    decreases |rs|
  {
    if rs != [] {
      UnnamedIsNeverTracked(yaml, Reconcile(yaml, s, rs[0]), rs[1..]);
    }
  }

  /** A ConfigMap already gone when it is reconciled is never forgotten: whatever was reconciled before,
      NotFound leaves the store, and so every lookup, unchanged. */
  lemma NotFoundForgetsNothing(yaml: Yaml, rs: seq<Request>, key: NamespacedName)
    requires forall i :: 0 <= i < |rs| ==> rs[i].key.name != ""
    ensures ReconcileAll(yaml, EmptyStore, rs + [Request(key, Missing)]) == ReconcileAll(yaml, EmptyStore, rs)
  {
    UnnamedIsNeverTracked(yaml, EmptyStore, rs);
    ReconcileAllSnoc(yaml, EmptyStore, rs, Request(key, Missing));
  }

  lemma {:induction false} ReconcileAllSnoc(yaml: Yaml, s: Store, rs: seq<Request>, last: Request)
    ensures ReconcileAll(yaml, s, rs + [last]) == Reconcile(yaml, ReconcileAll(yaml, s, rs), last)
    decreases |rs|
  {
    if rs == [] {
      assert rs + [last] == [last];
    } else {
      assert (rs + [last])[1..] == rs[1..] + [last];
      ReconcileAllSnoc(yaml, Reconcile(yaml, s, rs[0]), rs[1..], last);
    }
  }

  // ---------- the store as it is updated in place ----------

  class AdaptersStoreImpl {
    var loraAdapterToBaseModel: map<string, string>
    var configmapAdapters: map<NamespacedName, set<string>>
    var baseModels: map<string, int>

    ghost function View(): Store
      reads this
    {
      Store(loraAdapterToBaseModel, configmapAdapters, baseModels)
    }

    constructor ()
      ensures View() == EmptyStore
    {
      loraAdapterToBaseModel, configmapAdapters, baseModels := map[], map[], map[];
    }

    method MapAdapters(adapters: set<string>, baseModel: string)
      modifies `loraAdapterToBaseModel
      ensures loraAdapterToBaseModel == Assign(old(loraAdapterToBaseModel), adapters, baseModel)
    {
      var rest := adapters;
      while rest != {}
        invariant rest <= adapters
        invariant loraAdapterToBaseModel == Assign(old(loraAdapterToBaseModel), adapters - rest, baseModel)
        decreases |rest|
      {
        var adapterToUpdate :| adapterToUpdate in rest;
        loraAdapterToBaseModel := loraAdapterToBaseModel[adapterToUpdate := baseModel];
        rest := rest - {adapterToUpdate};
      }
      assert adapters - rest == adapters;
    }

    method UnmapAdapters(adapters: set<string>)
      modifies `loraAdapterToBaseModel
      ensures loraAdapterToBaseModel == old(loraAdapterToBaseModel) - adapters
    {
      var rest := adapters;
      while rest != {}
        invariant rest <= adapters
        invariant loraAdapterToBaseModel == old(loraAdapterToBaseModel) - (adapters - rest)
        decreases |rest|
      {
        var adapterToRemove :| adapterToRemove in rest;
        loraAdapterToBaseModel := loraAdapterToBaseModel - {adapterToRemove};
        rest := rest - {adapterToRemove};
      }
      assert adapters - rest == adapters;
    }

    /** Returns false, changing nothing, when the ConfigMap does not parse. */
    method ConfigMapUpdateOrAddIfNotExist(yaml: Yaml, configmap: ConfigMap) returns (ok: bool)
      modifies this
      ensures ok == ParseConfigMap(yaml, configmap).Some?
      ensures View() ==
              if ok then Update(old(View()), configmap.key, ParseConfigMap(yaml, configmap).value) else old(View())
    {
      var parsed := ParseConfigMap(yaml, configmap);
      if parsed.None? {
        return false;
      }
      var baseModel, newAdapters := parsed.value.base, parsed.value.adapters;
      var configmapExist := configmap.key in configmapAdapters;
      var existingAdapters := if configmapExist then configmapAdapters[configmap.key] else {};
      MapAdapters(newAdapters, baseModel);
      UnmapAdapters(existingAdapters - newAdapters);
      if !configmapExist {
        if baseModel in baseModels {
          baseModels := baseModels[baseModel := baseModels[baseModel] + 1];
        } else {
          baseModels := baseModels[baseModel := 1];
        }
      }
      configmapAdapters := configmapAdapters[configmap.key := newAdapters];
      return true;
    }

    method ConfigMapDelete(configmap: ConfigMap)
      modifies this
      ensures View() == Delete(old(View()), configmap.key, ParseBaseModel(configmap))
    {
      if configmap.key !in configmapAdapters {
        return;
      }
      var adapters := configmapAdapters[configmap.key];
      UnmapAdapters(adapters);
      configmapAdapters := configmapAdapters - {configmap.key};
      var baseModel := ParseBaseModel(configmap);
      if baseModel.None? {
        return;
      }
      var count := CountOf(baseModels, baseModel.value);
      if count == 1 {
        baseModels := baseModels - {baseModel.value};
      } else {
        baseModels := baseModels[baseModel.value := count - 1];
      }
    }

    method LookupBaseModel(modelName: string) returns (baseModel: string)
      ensures baseModel == GetBaseModel(View(), modelName)
      ensures forall live :: Agrees(View(), live) ==> Resolves(live, Text.TrimSpace(modelName), baseModel)
    {
      var trimmed := Text.TrimSpace(modelName);
      if trimmed in loraAdapterToBaseModel {
        baseModel := loraAdapterToBaseModel[trimmed];
      } else if trimmed in baseModels {
        baseModel := trimmed;
      } else {
        baseModel := "";
      }
      forall live | Agrees(View(), live) ensures Resolves(live, trimmed, baseModel) {
        LookupIsSearch(View(), live, modelName);
      }
    }

    /** The reconciler's use of the store; false is an error, after which the reconciliation is retried. */
    method ReconcileOne(yaml: Yaml, r: Request) returns (ok: bool)
      modifies this
      ensures View() == Reconcile(yaml, old(View()), r)
      ensures ok <==> Deletes(r) || (r.answer.Present? && ParseConfigMap(yaml, Fetched(r)).Some?)
    {
      if r.answer.Unavailable? {
        return false;
      }
      var configmap := Fetched(r);
      if r.answer.Missing? || configmap.deleting || !configmap.managed {
        ConfigMapDelete(configmap);
        return true;
      }
      ok := ConfigMapUpdateOrAddIfNotExist(yaml, configmap);
    }
  }
}
