/** The order in which scored models are put before a picker takes one. */
module Ranking {
  /** Models are known by their names, which the datastore keeps unique. */
  type Model = string

  datatype Scored = Scored(model: Model, score: real)

  // ---------- the stable sort, highest score first ----------

  function Insert(s: seq<Scored>, x: Scored): seq<Scored> {
    if s == [] || s[|s| - 1].score >= x.score then s + [x]
    else Insert(s[..|s| - 1], x) + [s[|s| - 1]]
  }

  function StableSort(s: seq<Scored>): seq<Scored> {
    if s == [] then [] else Insert(StableSort(s[..|s| - 1]), s[|s| - 1])
  }

  ghost predicate Descending(s: seq<Scored>) {
    forall i, j :: 0 <= i < j < |s| ==> s[i].score >= s[j].score
  }

  /** The elements with one given score, in order. */
  ghost function Tied(s: seq<Scored>, score: real): seq<Scored> {
    if s == [] then []
    else Tied(s[..|s| - 1], score) + (if s[|s| - 1].score == score then [s[|s| - 1]] else [])
  }

  lemma TiedSnoc(s: seq<Scored>, x: Scored, score: real)
    ensures Tied(s + [x], score) == Tied(s, score) + (if x.score == score then [x] else [])
  {
    assert (s + [x])[..|s|] == s;
  }

  lemma {:induction false} InsertPermutes(s: seq<Scored>, x: Scored)
    ensures multiset(Insert(s, x)) == multiset(s) + multiset{x}
  {
    if s != [] && s[|s| - 1].score < x.score {
      assert s == s[..|s| - 1] + [s[|s| - 1]];
      InsertPermutes(s[..|s| - 1], x);
    }
  }

  lemma {:induction false} InsertKeepsOrder(s: seq<Scored>, x: Scored)
    requires Descending(s)
    ensures Descending(Insert(s, x))
  {
    if s != [] && s[|s| - 1].score < x.score {
      var front, last := s[..|s| - 1], s[|s| - 1];
      InsertKeepsOrder(front, x);
      InsertPermutes(front, x);
      var r := Insert(front, x);
      forall i | 0 <= i < |r| ensures r[i].score >= last.score {
        assert r[i] in multiset(r);
        assert r[i] in front || r[i] == x;
      }
    }
  }

  lemma {:induction false} InsertKeepsTies(s: seq<Scored>, x: Scored, score: real)
    requires Descending(s)
    ensures Tied(Insert(s, x), score) == Tied(s + [x], score)
  {
    if s != [] && s[|s| - 1].score < x.score {
      var front, last := s[..|s| - 1], s[|s| - 1];
      assert s + [x] == front + [last] + [x];
      InsertKeepsTies(front, x, score);
      TiedSwap(front, x, last, Insert(front, x), score);
    }
  }

  /** Two elements of different score may change places. */
  lemma TiedSwap(front: seq<Scored>, x: Scored, last: Scored, r: seq<Scored>, score: real)
    requires last.score != x.score && Tied(r, score) == Tied(front + [x], score)
    ensures Tied(r + [last], score) == Tied(front + [last] + [x], score)
  {
    TiedSnoc(r, last, score);
    TiedSnoc(front, x, score);
    TiedSnoc(front, last, score);
    TiedSnoc(front + [last], x, score);
  }

  /** The sort is the sorting permutation that leaves equal scores in their given order. */
  lemma {:induction false} StableSortSorts(s: seq<Scored>)
    ensures var r := StableSort(s);
            && Descending(r)
            && multiset(r) == multiset(s)
            && forall score :: Tied(r, score) == Tied(s, score)
  {
    if s != [] {
      var front, last := s[..|s| - 1], s[|s| - 1];
      assert s == front + [last];
      StableSortSorts(front);
      InsertPermutes(StableSort(front), last);
      InsertKeepsOrder(StableSort(front), last);
      forall score ensures Tied(StableSort(s), score) == Tied(s, score) {
        InsertKeepsTies(StableSort(front), last, score);
        TiedSnoc(StableSort(front), last, score);
        TiedSnoc(front, last, score);
      }
    }
  }

  lemma {:induction false} TiedHead(s: seq<Scored>, k: nat)
    requires k < |s| && forall i :: 0 <= i < k ==> s[i].score != s[k].score
    ensures Tied(s, s[k].score) != [] && Tied(s, s[k].score)[0] == s[k]
  {
    var front := s[..|s| - 1];
    if k < |front| {
      TiedHead(front, k);
    } else {
      NoneTied(front, s[k].score);
    }
  }

  lemma {:induction false} NoneTied(s: seq<Scored>, score: real)
    requires forall i :: 0 <= i < |s| ==> s[i].score != score
    ensures Tied(s, score) == []
  {
    if s != [] {
      NoneTied(s[..|s| - 1], score);
    }
  }

  lemma SortedHeadScore(s: seq<Scored>, k: nat)
    requires k < |s| && forall i :: 0 <= i < |s| ==> s[i].score <= s[k].score
    ensures StableSort(s) != [] && StableSort(s)[0].score == s[k].score
  {
    var r := StableSort(s);
    StableSortSorts(s);
    assert s[k] in multiset(r);
    var j :| 0 <= j < |r| && r[j] == s[k];
    assert r[j].score <= r[0].score;
    assert r[0] in multiset(s);
    var i :| 0 <= i < |s| && s[i] == r[0];
  }

  lemma SortedTies(s: seq<Scored>, score: real)
    ensures Tied(StableSort(s), score) == Tied(s, score)
  {
    StableSortSorts(s);
  }

  /** The head of the sorted list is the first among the best. */
  lemma HeadIsFirstBest(s: seq<Scored>, k: nat)
    requires k < |s|
    requires forall i :: 0 <= i < |s| ==> s[i].score <= s[k].score
    requires forall i :: 0 <= i < k ==> s[i].score < s[k].score
    ensures StableSort(s) != [] && StableSort(s)[0] == s[k]
  {
    SortedHeadScore(s, k);
    SortedTies(s, s[k].score);
    TiedHead(s, k);
    TiedHead(StableSort(s), 0);
  }

  // ---------- the shuffle ----------

  function Swapped(s: seq<Scored>, i: nat, j: nat): seq<Scored>
    requires i < |s| && j < |s|
  {
    s[i := s[j]][j := s[i]]
  }

  lemma SwappedPermutes(s: seq<Scored>, i: nat, j: nat)
    requires i < |s| && j < |s|
    ensures multiset(Swapped(s, i, j)) == multiset(s)
  {
  }

  /** The generator's answer for step i, a position up to i. */
  function Drawn(draw: nat -> nat, i: nat): (j: nat)
    ensures j <= i
  {
    draw(i) % (i + 1)
  }

  /** Fisher-Yates from position i downwards. */
  function Shuffled(s: seq<Scored>, i: nat, draw: nat -> nat): seq<Scored>
    requires i < |s|
    decreases i
  {
    if i == 0 then s else Shuffled(Swapped(s, i, Drawn(draw, i)), i - 1, draw)
  }

  lemma {:induction false} ShufflePermutes(s: seq<Scored>, i: nat, draw: nat -> nat)
    requires i < |s|
    ensures multiset(Shuffled(s, i, draw)) == multiset(s)
    ensures |Shuffled(s, i, draw)| == |s|
    decreases i
  {
    if i > 0 {
      SwappedPermutes(s, i, Drawn(draw, i));
      ShufflePermutes(Swapped(s, i, Drawn(draw, i)), i - 1, draw);
    }
  }

  /** The draws that do nothing but swap position k with the front. */
  function ToFront(k: nat): nat -> nat { i => if i == k then 0 else i }

  lemma ToFrontDraws(k: nat, i: nat)
    ensures Drawn(ToFront(k), i) == if i == k then 0 else i
  {
    assert i % (i + 1) == i;
    assert 0 % (i + 1) == 0;
  }

  lemma {:induction false} QuietShuffle(s: seq<Scored>, i: nat, k: nat)
    requires i < |s| && i < k
    ensures Shuffled(s, i, ToFront(k)) == s
    decreases i
  {
    if i > 0 {
      ToFrontDraws(k, i);
      assert Swapped(s, i, i) == s;
      QuietShuffle(s, i - 1, k);
    }
  }

  lemma {:induction false} ShuffleToFront(s: seq<Scored>, i: nat, k: nat)
    requires k <= i < |s|
    ensures |Shuffled(s, i, ToFront(k))| == |s| && Shuffled(s, i, ToFront(k))[0] == s[k]
    decreases i
  {
    ToFrontDraws(k, i);
    if i > 0 && i == k {
      QuietShuffle(Swapped(s, k, 0), k - 1, k);
    } else if i > 0 {
      assert Swapped(s, i, i) == s;
      ShuffleToFront(s, i - 1, k);
    }
  }

  /** The list a max-score picker works through: shuffled, then sorted. */
  function Ranked(s: seq<Scored>, draw: nat -> nat): seq<Scored> {
    StableSort(if s == [] then [] else Shuffled(s, |s| - 1, draw))
  }

  ghost predicate Best(s: seq<Scored>, x: Scored) {
    x in s && forall y :: y in s ==> y.score <= x.score
  }

  /** Whatever the draws, the first of the ranking has the best score; and ties are open: each of the
      best comes first under some draws. */
  lemma RankedHeadIsBest(s: seq<Scored>, x: Scored)
    requires s != []
    ensures (exists draw :: Ranked(s, draw) != [] && Ranked(s, draw)[0] == x) <==> Best(s, x)
    ensures forall draw :: Ranked(s, draw) != [] && Best(s, Ranked(s, draw)[0])
  {
    forall draw ensures Ranked(s, draw) != [] && Best(s, Ranked(s, draw)[0]) {
      RankedIsBest(s, draw);
    }
    if Best(s, x) {
      var k :| 0 <= k < |s| && s[k] == x;
      AnyBestCanLead(s, k);
    }
  }

  lemma AnyBestCanLead(s: seq<Scored>, k: nat)
    requires k < |s| && Best(s, s[k])
    ensures Ranked(s, ToFront(k)) != [] && Ranked(s, ToFront(k))[0] == s[k]
  {
    var t := Shuffled(s, |s| - 1, ToFront(k));
    ShuffleToFront(s, |s| - 1, k);
    ShufflePermutes(s, |s| - 1, ToFront(k));
    forall i | 0 <= i < |t| ensures t[i].score <= t[0].score {
      assert t[i] in multiset(t);
    }
    HeadIsFirstBest(t, 0);
  }

  lemma RankedIsBest(s: seq<Scored>, draw: nat -> nat)
    requires s != []
    ensures Ranked(s, draw) != [] && Best(s, Ranked(s, draw)[0])
    ensures multiset(Ranked(s, draw)) == multiset(s)
  {
    var t := Shuffled(s, |s| - 1, draw);
    var r := StableSort(t);
    ShufflePermutes(s, |s| - 1, draw);
    StableSortSorts(t);
    assert |multiset(r)| == |multiset(s)|;
    assert r[0] in multiset(s);
    forall y | y in s ensures y.score <= r[0].score {
      assert y in multiset(r);
    }
  }

  /** In-place swaps driven by the shared random generator. */
  method ShuffleScoredModels(a: array<Scored>, draw: nat -> nat)
    modifies a
    ensures a[..] == if a.Length == 0 then [] else Shuffled(old(a[..]), a.Length - 1, draw)
  {
    if a.Length == 0 { return; }
    var i := a.Length - 1;
    while i > 0
      invariant 0 <= i < a.Length
      invariant Shuffled(a[..], i, draw) == Shuffled(old(a[..]), a.Length - 1, draw)
    {
      var j := Drawn(draw, i);
      ghost var was := a[..];
      a[i], a[j] := a[j], a[i];
      assert a[..] == Swapped(was, i, j);
      i := i - 1;
    }
  }

  method SortStable(a: array<Scored>)
    modifies a
    ensures a[..] == StableSort(old(a[..]))
  {
    ghost var s := a[..];
    var i := 0;
    while i < a.Length
      invariant 0 <= i <= a.Length
      invariant a[..i] == StableSort(s[..i])
      invariant forall k :: i <= k < a.Length ==> a[k] == s[k]
    {
      assert s[..i + 1][..i] == s[..i];
      SinkInto(a, i);
      i := i + 1;
    }
    assert a[..i] == a[..] && s[..i] == s;
  }

  /** Sinks a[i] into the part before it. */
  method SinkInto(a: array<Scored>, i: nat)
    requires i < a.Length
    modifies a
    ensures a[..i + 1] == Insert(old(a[..i]), old(a[i]))
    ensures forall k :: i < k < a.Length ==> a[k] == old(a[k])
  {
    var j := i;
    ghost var s, x := a[..i], a[i];
    while j > 0 && a[j - 1].score < a[j].score
      invariant 0 <= j <= i
      invariant forall k :: 0 <= k < j ==> a[k] == s[k]
      invariant a[j] == x
      invariant forall k :: j < k <= i ==> a[k] == s[k - 1]
      invariant forall k :: i < k < a.Length ==> a[k] == old(a[k])
      invariant forall k :: j <= k < i ==> s[k].score < x.score
    {
      a[j - 1], a[j] := a[j], a[j - 1];
      j := j - 1;
    }
    InsertAt(s, x, j);
    assert a[..i + 1] == s[..j] + [x] + s[j..];
  }

  lemma {:induction false} InsertAt(s: seq<Scored>, x: Scored, j: nat)
    requires j <= |s| && (j > 0 ==> s[j - 1].score >= x.score)
    requires forall k :: j <= k < |s| ==> s[k].score < x.score
    ensures Insert(s, x) == s[..j] + [x] + s[j..]
    decreases |s|
  {
    if j < |s| {
      var front := s[..|s| - 1];
      InsertAt(front, x, j);
      assert s == front + [s[|s| - 1]];
      assert front[..j] == s[..j];
      assert s[j..] == front[j..] + [s[|s| - 1]];
    }
  }

  method Rank(a: array<Scored>, draw: nat -> nat)
    modifies a
    ensures a[..] == Ranked(old(a[..]), draw)
  {
    ShuffleScoredModels(a, draw);
    SortStable(a);
  }

  /** MaxScorePicker.Pick. An empty list makes the source index out of range, so it is required non-empty;
      Selector.Pipeline.Run shows that it always is. */
  method PickMaxScore(a: array<Scored>, draw: nat -> nat) returns (target: Model)
    requires a.Length > 0
    modifies a
    ensures a[..] == Ranked(old(a[..]), draw)
    ensures multiset(a[..]) == multiset(old(a[..]))
    ensures Best(old(a[..]), a[0]) && target == a[0].model
  {
    RankedIsBest(a[..], draw);
    Rank(a, draw);
    target := a[0].model;
  }
}

/** The model-selector pipeline: filters, weighted scorers and one picker. */
module Selector {
  import opened Common
  import opened Messages
  import opened Framework
  import opened Ranking
  import opened Listings

  /** What filters and scorers may look at: the request and the cycle state. */
  datatype Query = Query(request: Message, cycle: CycleState)

  datatype Filter = Filter(name: string, keep: (Query, seq<Model>) -> seq<Model>)

  /** A scorer that answers None panics. */
  datatype Scorer = Scorer(name: string, score: (Query, seq<Model>) -> Option<map<Model, real>>)
  datatype WeightedScorer = WeightedScorer(scorer: Scorer, weight: real)

  /** MaxScore sorts; any other picker is some choice from the scored models in the order given. */
  datatype Picker = MaxScore | OtherPicker(name: string, pick: seq<Scored> -> Model)

  /** The contents of a pipeline. */
  datatype Wiring = Wiring(filters: seq<Filter>, scorers: seq<WeightedScorer>, picker: Option<Picker>)

  const EmptyWiring := Wiring([], [], None)

  // ---------- filtering ----------

  /** The filter loop, which stops as soon as nothing is left. */
  function Surviving(filters: seq<Filter>, q: Query, models: seq<Model>): seq<Model>
    decreases |filters|
  {
    if filters == [] then models else
      var kept := filters[0].keep(q, models);
      if kept == [] then [] else Surviving(filters[1..], q, kept)
  }

  /** What is left after the first i filters when the loop never stops early. */
  ghost function Stage(filters: seq<Filter>, q: Query, models: seq<Model>, i: nat): seq<Model>
    requires i <= |filters|
  {
    if i == 0 then models else filters[i - 1].keep(q, Stage(filters, q, models, i - 1))
  }

  /** Filters are meant to return some of the models they are given. */
  ghost predicate Narrows(filters: seq<Filter>) {
    forall i, q, models, m :: 0 <= i < |filters| && m in filters[i].keep(q, models) ==> m in models
  }

  lemma {:induction false} StageShift(filters: seq<Filter>, q: Query, models: seq<Model>, i: nat)
    requires i < |filters|
    ensures Stage(filters, q, models, i + 1) == Stage(filters[1..], q, filters[0].keep(q, models), i)
  {
    if i > 0 {
      StageShift(filters, q, models, i - 1);
    } else {
      assert Stage(filters, q, models, 0) == models;
    }
  }

  lemma {:induction false} NothingComesBack(filters: seq<Filter>, q: Query, models: seq<Model>, i: nat, m: Model)
    requires Narrows(filters) && i <= |filters| && m in Stage(filters, q, models, i)
    ensures forall j :: 0 <= j <= i ==> m in Stage(filters, q, models, j)
  {
    if i > 0 {
      NothingComesBack(filters, q, models, i - 1, m);
    }
  }

  /** Stopping early cannot be observed, and a model survives exactly when every filter keeps it. */
  lemma SurvivorsPassEveryFilter(filters: seq<Filter>, q: Query, models: seq<Model>, m: Model)
    requires Narrows(filters)
    ensures Surviving(filters, q, models) == Stage(filters, q, models, |filters|)
    ensures m in Surviving(filters, q, models) <==>
            forall i :: 0 <= i <= |filters| ==> m in Stage(filters, q, models, i)
  {
    EarlyExitIsUnobservable(filters, q, models);
    if m in Stage(filters, q, models, |filters|) {
      NothingComesBack(filters, q, models, |filters|, m);
    }
  }

  lemma {:induction false} EarlyExitIsUnobservable(filters: seq<Filter>, q: Query, models: seq<Model>)
    requires Narrows(filters)
    ensures Surviving(filters, q, models) == Stage(filters, q, models, |filters|)
    decreases |filters|
  {
    if filters != [] {
      var kept := filters[0].keep(q, models);
      StageShift(filters, q, models, |filters| - 1);
      EarlyExitIsUnobservable(filters[1..], q, kept);
      if kept == [] {
        NothingFromNothing(filters[1..], q, |filters| - 1);
      }
    }
  }

  ghost predicate SomeStageEmpty(filters: seq<Filter>, q: Query, models: seq<Model>) {
    exists i :: 1 <= i <= |filters| && Stage(filters, q, models, i) == []
  }

  lemma EmptyStageFront(filters: seq<Filter>, q: Query, models: seq<Model>)
    requires filters != []
    ensures var kept := filters[0].keep(q, models);
            SomeStageEmpty(filters, q, models) <==> kept == [] || SomeStageEmpty(filters[1..], q, kept)
  {
    var rest, kept := filters[1..], filters[0].keep(q, models);
    forall i | 0 <= i < |filters| ensures Stage(filters, q, models, i + 1) == Stage(rest, q, kept, i) {
      StageShift(filters, q, models, i);
    }
    assert Stage(rest, q, kept, 0) == kept;
    assert Stage(filters, q, models, 0 + 1) == kept;
    if i :| 1 <= i <= |filters| && Stage(filters, q, models, i) == [] && kept != [] {
      assert Stage(filters, q, models, (i - 1) + 1) == Stage(rest, q, kept, i - 1);
    }
    if i :| 1 <= i <= |rest| && Stage(rest, q, kept, i) == [] {
      assert Stage(filters, q, models, i + 1) == [];
    }
  }

  /** For any filters whatever: what is left after all of them, or nothing once a stage is empty. */
  lemma {:induction false} SurvivorsAreLastStage(filters: seq<Filter>, q: Query, models: seq<Model>)
    ensures Surviving(filters, q, models) ==
            if SomeStageEmpty(filters, q, models) then [] else Stage(filters, q, models, |filters|)
    decreases |filters|
  {
    if filters != [] {
      SurvivorsAreLastStage(filters[1..], q, filters[0].keep(q, models));
      EmptyStageFront(filters, q, models);
      StageShift(filters, q, models, |filters| - 1);
    }
  }

  lemma HasMember(models: seq<Model>)
    requires models != []
    ensures exists m :: m in models
  {
    assert models[0] in models;
  }

  lemma {:induction false} NothingFromNothing(filters: seq<Filter>, q: Query, i: nat)
    requires Narrows(filters) && i <= |filters|
    ensures Stage(filters, q, [], i) == []
  {
    if i > 0 {
      NothingFromNothing(filters, q, i - 1);
      if filters[i - 1].keep(q, []) != [] {
        HasMember(filters[i - 1].keep(q, []));
        assert false;
      }
    }
  }

  // ---------- scoring ----------

  function EnforceScoreRange(score: real): (r: real)
    ensures 0.0 <= r <= 1.0
    ensures 0.0 <= score <= 1.0 ==> r == score
    ensures score < 0.0 ==> r == 0.0
    ensures score > 1.0 ==> r == 1.0
  {
    if score < 0.0 then 0.0 else if score > 1.0 then 1.0 else score
  }

  function Weigh(score: real, weight: real): real { EnforceScoreRange(score) * weight }

  /** What one scorer adds to a model's total; nothing when it gives no score. */
  function Contribution(s: WeightedScorer, scores: map<Model, real>, m: Model): real {
    if m in scores then Weigh(scores[m], s.weight) else 0.0
  }

  /** What a scorer that does not panic answers. */
  function ScoresOf(s: WeightedScorer, q: Query, models: seq<Model>): map<Model, real> {
    var scores := s.scorer.score(q, models);
    if scores.Some? then scores.value else map[]
  }

  function Total(scorers: seq<WeightedScorer>, q: Query, models: seq<Model>, m: Model): real {
    if scorers == [] then 0.0 else
      var last := scorers[|scorers| - 1];
      Total(scorers[..|scorers| - 1], q, models, m) + Contribution(last, ScoresOf(last, q, models), m)
  }

  /** Some scorer panics on these models. */
  ghost predicate SomeScorerPanics(scorers: seq<WeightedScorer>, q: Query, models: seq<Model>) {
    exists i :: 0 <= i < |scorers| && scorers[i].scorer.score(q, models).None?
  }

  /** A scorer's answer that covers exactly these models. */
  function Assigned(models: seq<Model>, f: Model -> real): (r: map<Model, real>)
    ensures forall m :: m in r <==> m in models
    ensures forall m :: m in r ==> r[m] == f(m)
  {
    if models == [] then map[] else
      var front, last := models[..|models| - 1], models[|models| - 1];
      assert models == front + [last];
      Assigned(front, f)[last := f(last)]
  }

  /** Exactly when a selection panics: something survives the filters, and a scorer panics on it or there is no
      picker. */
  ghost predicate PanicsOn(w: Wiring, q: Query, candidates: seq<Model>) {
    var models := Surviving(w.filters, q, candidates);
    models != [] && (w.picker == None || SomeScorerPanics(w.scorers, q, models))
  }

  /** With one scorer of positive weight, the best total is the best clamped score. */
  lemma OneScorerDecides(s: WeightedScorer, q: Query, models: seq<Model>, m: Model, n: Model)
    requires s.weight > 0.0 && m in ScoresOf(s, q, models) && n in ScoresOf(s, q, models)
    requires Total([s], q, models, m) <= Total([s], q, models, n)
    ensures EnforceScoreRange(ScoresOf(s, q, models)[m]) <= EnforceScoreRange(ScoresOf(s, q, models)[n])
  {
    var scores := ScoresOf(s, q, models);
    assert [s][..0] == [];
    assert Total([], q, models, m) == 0.0 && Total([], q, models, n) == 0.0;
    assert Total([s], q, models, m) == Contribution(s, scores, m);
    assert Total([s], q, models, n) == Contribution(s, scores, n);
    WeighOrder(scores[m], scores[n], s.weight);
  }

  lemma WeighOrder(x: real, y: real, weight: real)
    requires weight > 0.0 && Weigh(x, weight) <= Weigh(y, weight)
    ensures EnforceScoreRange(x) <= EnforceScoreRange(y)
  {
    StrictProduct(EnforceScoreRange(x), EnforceScoreRange(y), weight);
  }

  lemma StrictProduct(a: real, b: real, w: real)
    requires w > 0.0
    ensures a > b ==> a * w > b * w
  {
    if a > b {
      PositiveProduct(a - b, w);
      assert (a - b) * w == a * w - b * w;
    }
  }

  lemma PositiveProduct(x: real, y: real)
    requires x > 0.0 && y > 0.0
    ensures x * y > 0.0
  {
  }

  function SumWeights(scorers: seq<WeightedScorer>): real {
    if scorers == [] then 0.0 else SumWeights(scorers[..|scorers| - 1]) + scorers[|scorers| - 1].weight
  }

  lemma ProductIsNonNegative(x: real, y: real)
    requires x >= 0.0 && y >= 0.0
    ensures x * y >= 0.0
  {
  }

  lemma WeighRange(score: real, weight: real)
    requires weight >= 0.0
    ensures 0.0 <= Weigh(score, weight) <= weight
  {
    if 0.0 <= score <= 1.0 {
      ProductIsNonNegative(score, weight);
      ProductIsNonNegative(1.0 - score, weight);
      assert weight - score * weight == (1.0 - score) * weight;
    }
  }

  lemma ContributionRange(s: WeightedScorer, scores: map<Model, real>, m: Model)
    requires s.weight >= 0.0
    ensures 0.0 <= Contribution(s, scores, m) <= s.weight
  {
    if m in scores {
      WeighRange(scores[m], s.weight);
    }
  }

  /** With non-negative weights every total lies between 0 and the sum of the weights. */
  lemma {:induction false} TotalsAreBounded(scorers: seq<WeightedScorer>, q: Query, models: seq<Model>, m: Model)
    requires forall i :: 0 <= i < |scorers| ==> scorers[i].weight >= 0.0
    ensures 0.0 <= Total(scorers, q, models, m) <= SumWeights(scorers)
  {
    if scorers != [] {
      var last := scorers[|scorers| - 1];
      TotalsAreBounded(scorers[..|scorers| - 1], q, models, m);
      ContributionRange(last, ScoresOf(last, q, models), m);
    }
  }

  /** What one scorer adds: weight times clamped score, and nothing where it gives none. */
  lemma ContributionIsWeighted(s: WeightedScorer, q: Query, models: seq<Model>, m: Model)
    ensures m !in ScoresOf(s, q, models) ==> Total([s], q, models, m) == 0.0
    ensures m in ScoresOf(s, q, models) ==>
              var x := ScoresOf(s, q, models)[m];
              Total([s], q, models, m) == (if x < 0.0 then 0.0 else if x > 1.0 then s.weight else s.weight * x)
  {
    assert [s][..0] == [];
    assert Total([], q, models, m) == 0.0;
  }

  /** Totals add up over the list: no scorer is left out, and their order does not matter. */
  lemma {:induction false} TotalOfConcat(
    a: seq<WeightedScorer>, b: seq<WeightedScorer>, q: Query, models: seq<Model>, m: Model)
    ensures Total(a + b, q, models, m) == Total(a, q, models, m) + Total(b, q, models, m)
    decreases |b|
  {
    if b == [] {
      assert a + b == a;
    } else {
      assert (a + b)[..|a + b| - 1] == a + b[..|b| - 1];
      TotalOfConcat(a, b[..|b| - 1], q, models, m);
    }
  }

  lemma RaisedAlone(s: WeightedScorer, t: WeightedScorer, q: Query, models: seq<Model>, m: Model, d: real)
    requires s.weight == t.weight && m in ScoresOf(s, q, models) && m in ScoresOf(t, q, models)
    requires ScoresOf(t, q, models)[m] == ScoresOf(s, q, models)[m] + d
    requires 0.0 <= ScoresOf(s, q, models)[m] <= 1.0 && 0.0 <= ScoresOf(t, q, models)[m] <= 1.0
    ensures Total([t], q, models, m) - Total([s], q, models, m) == s.weight * d
  {
    ContributionIsWeighted(s, q, models, m);
    ContributionIsWeighted(t, q, models, m);
    ProductDistributes(s.weight, ScoresOf(s, q, models)[m], d);
  }

  lemma ProductDistributes(w: real, x: real, d: real)
    ensures w * (x + d) - w * x == w * d
  {
  }

  /** Wherever a scorer stands in the list: one that scores a model d higher within [0, 1] raises its total by
      weight times d. */
  lemma RaisedScoreRaisesTotal(
    a: seq<WeightedScorer>, s: WeightedScorer, t: WeightedScorer, b: seq<WeightedScorer>, q: Query,
    models: seq<Model>, m: Model, d: real)
    requires s.weight == t.weight && m in ScoresOf(s, q, models) && m in ScoresOf(t, q, models)
    requires ScoresOf(t, q, models)[m] == ScoresOf(s, q, models)[m] + d
    requires 0.0 <= ScoresOf(s, q, models)[m] <= 1.0 && 0.0 <= ScoresOf(t, q, models)[m] <= 1.0
    ensures Total(a + [t] + b, q, models, m) - Total(a + [s] + b, q, models, m) == s.weight * d
  {
    TotalOfConcat(a + [s], b, q, models, m);
    TotalOfConcat(a + [t], b, q, models, m);
    TotalOfConcat(a, [s], q, models, m);
    TotalOfConcat(a, [t], q, models, m);
    RaisedAlone(s, t, q, models, m, d);
  }

  // ---------- the pipeline ----------

  /** A plugin instance as the pipeline sees it: the roles its type implements. */
  datatype Roles = Roles(filter: Option<Filter>, scorer: Option<Scorer>, picker: Option<Picker>)

  /** AddPlugins takes plugins as they are, or scorers wrapped together with a weight. */
  datatype Element = Bare(roles: Roles) | Weighted(scorer: Scorer, weight: real, roles: Roles)

  function FiltersOf(elements: seq<Element>): seq<Filter> {
    if elements == [] then [] else
      var e := elements[|elements| - 1];
      FiltersOf(elements[..|elements| - 1]) + (if e.roles.filter.Some? then [e.roles.filter.value] else [])
  }

  function ScorersOf(elements: seq<Element>): seq<WeightedScorer> {
    if elements == [] then [] else
      var e := elements[|elements| - 1];
      ScorersOf(elements[..|elements| - 1]) + (if e.Weighted? then [WeightedScorer(e.scorer, e.weight)] else [])
  }

  function PickersOf(elements: seq<Element>): seq<Picker> {
    if elements == [] then [] else
      var e := elements[|elements| - 1];
      PickersOf(elements[..|elements| - 1]) + (if e.roles.picker.Some? then [e.roles.picker.value] else [])
  }

  /** Every filter, every weighted scorer and every picker among the elements is taken, in order. */
  lemma {:induction false} ElementsAreSorted(elements: seq<Element>)
    ensures Mirrors(elements, (e: Element) => e.roles.filter.Some?,
                    (f: Filter, e: Element) => e.roles.filter == Some(f), FiltersOf(elements))
    ensures Mirrors(elements, (e: Element) => e.Weighted?,
                    (s: WeightedScorer, e: Element) => e.Weighted? && s.scorer == e.scorer && s.weight == e.weight,
                    ScorersOf(elements))
    ensures Mirrors(elements, (e: Element) => e.roles.picker.Some?,
                    (p: Picker, e: Element) => e.roles.picker == Some(p), PickersOf(elements))
  {
    var hasFilter := (e: Element) => e.roles.filter.Some?;
    var isFilter := (f: Filter, e: Element) => e.roles.filter == Some(f);
    var weighted := (e: Element) => e.Weighted?;
    var isScorer := (s: WeightedScorer, e: Element) => e.Weighted? && s.scorer == e.scorer && s.weight == e.weight;
    var hasPicker := (e: Element) => e.roles.picker.Some?;
    var isPicker := (p: Picker, e: Element) => e.roles.picker == Some(p);
    if elements == [] {
      MirrorsNothing(hasFilter, isFilter);
      MirrorsNothing(weighted, isScorer);
      MirrorsNothing(hasPicker, isPicker);
    } else {
      var front, e := elements[..|elements| - 1], elements[|elements| - 1];
      ElementsAreSorted(front);
      assert elements == front + [e];
      MirrorsSnoc(front, e, hasFilter, isFilter, FiltersOf(front), FiltersOf(elements)[|FiltersOf(front)|..]);
      MirrorsSnoc(front, e, weighted, isScorer, ScorersOf(front), ScorersOf(elements)[|ScorersOf(front)|..]);
      MirrorsSnoc(front, e, hasPicker, isPicker, PickersOf(front), PickersOf(elements)[|PickersOf(front)|..]);
    }
  }

  ghost predicate AllWeighted(elements: seq<Element>) {
    forall i :: 0 <= i < |elements| && elements[i].Bare? ==> elements[i].roles.scorer.None?
  }

  /** At most one picker altogether, and no scorer without a weight. */
  ghost predicate Acceptable(hasPicker: bool, elements: seq<Element>) {
    AllWeighted(elements) && |PickersOf(elements)| + (if hasPicker then 1 else 0) <= 1
  }

  lemma {:induction false} PickersGrow(elements: seq<Element>, n: nat)
    requires n <= |elements|
    ensures |PickersOf(elements[..n])| <= |PickersOf(elements)|
  {
    if n < |elements| {
      assert elements[..|elements| - 1][..n] == elements[..n];
      PickersGrow(elements[..|elements| - 1], n);
    } else {
      assert elements[..n] == elements;
    }
  }

  lemma AddOne(elements: seq<Element>, i: nat)
    requires i < |elements|
    ensures var e, before, after := elements[i], elements[..i], elements[..i + 1];
            && FiltersOf(after) == FiltersOf(before) + (if e.roles.filter.Some? then [e.roles.filter.value] else [])
            && ScorersOf(after) == ScorersOf(before) + (if e.Weighted? then [WeightedScorer(e.scorer, e.weight)] else [])
            && PickersOf(after) == PickersOf(before) + (if e.roles.picker.Some? then [e.roles.picker.value] else [])
  {
    assert elements[..i + 1][..i] == elements[..i];
  }

  /** The validation loop of AddPlugins; nothing is changed before it has gone through the whole list. */
  method Validate(hasPicker: bool, elements: seq<Element>)
    returns (ok: bool, newFilters: seq<Filter>, newScorers: seq<WeightedScorer>, newPickers: seq<Picker>)
    ensures ok <==> Acceptable(hasPicker, elements)
    ensures ok ==> newFilters == FiltersOf(elements) && newScorers == ScorersOf(elements)
    ensures ok ==> newPickers == PickersOf(elements)
  {
    newFilters, newScorers, newPickers := [], [], [];
    for i := 0 to |elements|
      invariant AllWeighted(elements[..i]) && |newPickers| + (if hasPicker then 1 else 0) <= 1
      invariant newFilters == FiltersOf(elements[..i]) && newScorers == ScorersOf(elements[..i])
      invariant newPickers == PickersOf(elements[..i])
    {
      var e := elements[i];
      AddOne(elements, i);
      if e.Weighted? {
        newScorers := newScorers + [WeightedScorer(e.scorer, e.weight)];
      } else if e.roles.scorer.Some? {
        assert !AllWeighted(elements);
        return false, [], [], [];
      }
      if e.roles.filter.Some? {
        newFilters := newFilters + [e.roles.filter.value];
      }
      if e.roles.picker.Some? {
        if hasPicker || newPickers != [] {
          PickersGrow(elements, i + 1);
          return false, [], [], [];
        }
        newPickers := [e.roles.picker.value];
      }
    }
    assert elements[..|elements|] == elements;
    ok := true;
  }

  /** Every model once, with its total. */
  ghost predicate ScoredOnce(listed: seq<Scored>, scorers: seq<WeightedScorer>, q: Query, models: seq<Model>) {
    && (forall x :: x in listed <==> x.model in models && x.score == Total(scorers, q, models, x.model))
    && (forall i, j :: 0 <= i < j < |listed| ==> listed[i].model != listed[j].model)
  }

  datatype RunResult = Chosen(model: Model) | Failed(error: Error) | Panics

  class Pipeline {
    var filters: seq<Filter>
    var scorers: seq<WeightedScorer>
    var picker: Option<Picker>

    ghost function Value(): Wiring reads this { Wiring(filters, scorers, picker) }

    constructor ()
      ensures Value() == EmptyWiring
    {
      filters, scorers, picker := [], [], None;
    }

    method WithPicker(p: Picker)
      modifies this`picker
      ensures picker == Some(p)
    {
      picker := Some(p);
    }

    /** All or nothing: an unacceptable list leaves the pipeline as it was. */
    method AddPlugins(elements: seq<Element>) returns (ok: bool)
      modifies this
      ensures ok <==> Acceptable(old(picker).Some?, elements)
      ensures !ok ==> filters == old(filters) && scorers == old(scorers) && picker == old(picker)
      ensures ok ==> filters == old(filters) + FiltersOf(elements) && scorers == old(scorers) + ScorersOf(elements)
      ensures ok ==> picker == if PickersOf(elements) == [] then old(picker) else Some(PickersOf(elements)[0])
    {
      var newFilters, newScorers, newPickers;
      ok, newFilters, newScorers, newPickers := Validate(picker.Some?, elements);
      if ok {
        filters, scorers := filters + newFilters, scorers + newScorers;
        if newPickers != [] {
          picker := Some(newPickers[0]);
        }
      }
    }

    method RunFilterPlugins(q: Query, candidates: seq<Model>) returns (models: seq<Model>)
      ensures models == Surviving(filters, q, candidates)
    {
      models := candidates;
      var i := 0;
      while i < |filters|
        invariant 0 <= i <= |filters|
        invariant Surviving(filters, q, candidates) == Surviving(filters[i..], q, models)
      {
        assert filters[i..][1..] == filters[i + 1..];
        models := filters[i].keep(q, models);
        if models == [] { break; }
        i := i + 1;
      }
    }

    /** One scorer's results, visited in whatever order the map yields them. */
    method Accumulate(s: WeightedScorer, scores: map<Model, real>, totals: map<Model, real>)
      returns (r: map<Model, real>)
      ensures r.Keys == totals.Keys
      ensures forall m :: m in totals ==> r[m] == totals[m] + Contribution(s, scores, m)
    {
      r := totals;
      var todo := scores.Keys;
      while todo != {}
        invariant todo <= scores.Keys && r.Keys == totals.Keys
        invariant forall m :: m in totals ==>
          r[m] == totals[m] + if m in todo then 0.0 else Contribution(s, scores, m)
        decreases todo
      {
        var m :| m in todo;
        if m in r {
          r := r[m := r[m] + Weigh(scores[m], s.weight)];
        }
        todo := todo - {m};
      }
    }

    /** None when a scorer panics. */
    method RunScorerPlugins(q: Query, models: seq<Model>) returns (r: Option<map<Model, real>>)
      ensures r.None? <==> SomeScorerPanics(scorers, q, models)
      ensures r.Some? ==> r.value.Keys == set m | m in models
      ensures r.Some? ==> forall m :: m in r.value ==> r.value[m] == Total(scorers, q, models, m)
    {
      var totals: map<Model, real> := map[];
      for i := 0 to |models|
        invariant totals.Keys == set m | m in models[..i]
        invariant forall m :: m in totals ==> totals[m] == 0.0
      {
        totals := totals[models[i] := 0.0];
      }
      assert models[..|models|] == models;
      for i := 0 to |scorers|
        invariant totals.Keys == set m | m in models
        invariant forall m :: m in totals ==> totals[m] == Total(scorers[..i], q, models, m)
        invariant forall k :: 0 <= k < i ==> scorers[k].scorer.score(q, models).Some?
      {
        assert scorers[..i + 1][..i] == scorers[..i];
        var scores := scorers[i].scorer.score(q, models);
        if scores.None? { return None; }
        totals := Accumulate(scorers[i], scores.value, totals);
      }
      assert scorers[..|scorers|] == scorers;
      r := Some(totals);
    }

    /** The scored models as a slice, in whatever order the map yields them. */
    method Listed(totals: map<Model, real>) returns (s: seq<Scored>)
      ensures |s| == |totals| && forall i, j :: 0 <= i < j < |s| ==> s[i].model != s[j].model
      ensures forall x :: x in s <==> x.model in totals && x.score == totals[x.model]
    {
      s := [];
      var todo := totals.Keys;
      while todo != {}
        invariant todo <= totals.Keys && |s| + |todo| == |totals|
        invariant forall i, j :: 0 <= i < j < |s| ==> s[i].model != s[j].model
        invariant forall x :: x in s <==> x.model in totals && x.model !in todo && x.score == totals[x.model]
        decreases todo
      {
        var m :| m in todo;
        s := s + [Scored(m, totals[m])];
        todo := todo - {m};
      }
    }

    /** Filter, score, pick. With the max-score picker the model chosen passed the filters and no other that
        did has a greater weighted sum of clamped scores; nothing left is an error the client sees as 429. */
    method Run(q: Query, candidates: seq<Model>, draw: nat -> nat) returns (r: RunResult)
      ensures var models := Surviving(filters, q, candidates);
              && (models == [] <==> r.Failed?)
              && (r.Failed? ==> r.error.code == ResourceExhausted)
              && (r.Panics? <==> PanicsOn(Value(), q, candidates))
              && (r.Chosen? && picker == Some(MaxScore) ==>
                    && r.model in models
                    && forall m :: m in models ==>
                         Total(scorers, q, models, m) <= Total(scorers, q, models, r.model))
              && (r.Chosen? && picker.value.OtherPicker? ==>
                    exists listed :: ScoredOnce(listed, scorers, q, models) && r.model == picker.value.pick(listed))
    {
      var models := RunFilterPlugins(q, candidates);
      if models == [] {
        return Failed(Error(ResourceExhausted, "no models available after filtering"));
      }
      var scored := RunScorerPlugins(q, models);
      if scored.None? { return Panics; }
      var totals := scored.value;
      assert models[0] in totals;
      var listed := Listed(totals);
      assert ScoredOnce(listed, scorers, q, models);
      match picker
      case None => r := Panics;
      case Some(OtherPicker(_, pick)) => r := Chosen(pick(listed));
      case Some(MaxScore) =>
        var a := new Scored[|listed|](i requires 0 <= i < |listed| => listed[i]);
        assert a[..] == listed;
        var target := PickMaxScore(a, draw);
        r := Chosen(target);
        ArgMax(totals, listed, a[0]);
    }
  }

  lemma ArgMax(totals: map<Model, real>, listed: seq<Scored>, best: Scored)
    requires forall x :: x in listed <==> x.model in totals && x.score == totals[x.model]
    requires Best(listed, best)
    ensures best.model in totals && forall m :: m in totals ==> totals[m] <= totals[best.model]
  {
    forall m | m in totals ensures totals[m] <= totals[best.model] {
      assert Scored(m, totals[m]) in listed;
    }
  }
}

/** The model-selector plugin. */
module ModelSelection {
  import opened Common
  import opened Framework
  import opened Ranking
  import opened Selector
  import opened Datastore

  /** All models of the datastore, each once. */
  ghost predicate Lists(candidates: seq<Model>, models: Models) {
    && (forall m :: m in candidates <==> m in models)
    && (forall i, j :: 0 <= i < j < |candidates| ==> candidates[i] != candidates[j])
  }

  class ModelSelectorPlugin {
    const pipeline: Pipeline
    const ds: Store

    constructor (pipeline: Pipeline, ds: Store)
      ensures this.pipeline == pipeline && this.ds == ds
    {
      this.pipeline, this.ds := pipeline, ds;
    }

    /** The candidates are all models of the datastore, each once, in the order in which it happens to list
        them. */
    method Select(q: Query, draw: nat -> nat) returns (r: RunResult, ghost candidates: seq<Model>)
      ensures Lists(candidates, ds.models)
      ensures ds.models == map[] ==> r.Failed?
      ensures r.Panics? <==> ds.models != map[] && PanicsOn(pipeline.Value(), q, candidates)
      ensures r.Chosen? && pipeline.picker == Some(MaxScore) ==>
                var models := Surviving(pipeline.filters, q, candidates);
                && r.model in models
                && (Narrows(pipeline.filters) ==> r.model in ds.models)
                && forall m :: m in models ==>
                     Total(pipeline.scorers, q, models, m) <= Total(pipeline.scorers, q, models, r.model)
    {
      var listed := ds.GetModels((m, a) => true);
      candidates := listed;
      if listed == [] {
        assert ds.models.Keys == {};
        return Failed(Error(Unknown, "no candidate models available in datastore")), candidates;
      }
      assert listed[0] in ds.models;
      r := pipeline.Run(q, listed, draw);
      if r.Chosen? && pipeline.picker == Some(MaxScore) && Narrows(pipeline.filters) {
        SurvivorsPassEveryFilter(pipeline.filters, q, listed, r.model);
        assert r.model in Stage(pipeline.filters, q, listed, 0);
      }
    }
  }
}
