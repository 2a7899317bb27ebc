/** The in-flight requests scorer. */
module InFlightScorer {
  import opened Common
  import opened Ranking
  import opened Selector

  const MaxInt64 := 0x7fff_ffff_ffff_ffff
  const MinInt64 := -0x8000_0000_0000_0000

  /** RequestMetadataCount.Requests: an int64 that its extractor never lets fall below 0, so that
      differences of two counts fit an int64 as well. A model without the attribute counts 0. */
  type Requests = n: int | 0 <= n <= MaxInt64

  ghost predicate Differ(models: seq<Model>, count: Model -> Requests) {
    exists a, b :: a in models && b in models && count(a) != count(b)
  }

  ghost predicate IsLeast(models: seq<Model>, count: Model -> Requests, least: int) {
    (exists m :: m in models && count(m) == least) && forall m :: m in models ==> least <= count(m)
  }

  ghost predicate IsMost(models: seq<Model>, count: Model -> Requests, most: int) {
    (exists m :: m in models && count(m) == most) && forall m :: m in models ==> count(m) <= most
  }

  function Least(models: seq<Model>, count: Model -> Requests): int {
    if models == [] then MaxInt64 else
      var least, c := Least(models[..|models| - 1], count), count(models[|models| - 1]);
      if c < least then c else least
  }

  function Most(models: seq<Model>, count: Model -> Requests): int {
    if models == [] then MinInt64 else
      var most, c := Most(models[..|models| - 1], count), count(models[|models| - 1]);
      if c > most then c else most
  }

  lemma {:induction false} ExtremesAreRight(models: seq<Model>, count: Model -> Requests)
    ensures models != [] ==>
              IsLeast(models, count, Least(models, count)) && IsMost(models, count, Most(models, count))
  {
    if models != [] {
      var front, last := models[..|models| - 1], models[|models| - 1];
      assert models == front + [last];
      assert last in models;
      ExtremesAreRight(front, count);
      if front == [] {
        assert models == [last];
        assert Least(front, count) == MaxInt64 && Most(front, count) == MinInt64;
      } else {
        var l :| l in front && count(l) == Least(front, count);
        var h :| h in front && count(h) == Most(front, count);
        assert l in models && h in models;
      }
    }
  }

  method Extremes(models: seq<Model>, count: Model -> Requests) returns (least: int, most: int)
    ensures least == Least(models, count) && most == Most(models, count)
    ensures models != [] ==> IsLeast(models, count, least) && IsMost(models, count, most)
  {
    least, most := MaxInt64, MinInt64;
    for i := 0 to |models|
      invariant least == Least(models[..i], count) && most == Most(models[..i], count)
    {
      assert models[..i + 1][..i] == models[..i];
      var c := count(models[i]);
      if c < least { least := c; }
      if c > most { most := c; }
    }
    assert models[..|models|] == models;
    ExtremesAreRight(models, count);
  }

  /** How much of the way from the most to the least loaded model; 1 when all are equally loaded. */
  function Relative(least: int, most: int, c: int): real {
    if most == least then 1.0 else (most - c) as real / (most - least) as real
  }

  lemma RelativeReversesOrder(least: int, most: int, c: int, d: int)
    requires least <= c <= most && least <= d <= most
    ensures 0.0 <= Relative(least, most, c) <= 1.0
    ensures Relative(least, most, c) < Relative(least, most, d) <==> d < c
    ensures Relative(least, most, least) == 1.0 && (least < most ==> Relative(least, most, most) == 0.0)
  {
    if least < most {
      QuotientOrder((most - c) as real, (most - d) as real, (most - least) as real);
      QuotientOrder((most - c) as real, (most - least) as real, (most - least) as real);
      QuotientOrder(0.0, (most - c) as real, (most - least) as real);
    }
  }

  lemma QuotientOrder(x: real, y: real, n: real)
    requires n > 0.0
    ensures x / n < y / n <==> x < y
    ensures x / n == y / n <==> x == y
    ensures n / n == 1.0 && 0.0 / n == 0.0
  {
  }

  function AllScores(models: seq<Model>, count: Model -> Requests): map<Model, real> {
    Assigned(models, (m: Model) => Relative(Least(models, count), Most(models, count), count(m)))
  }

  /** Scores lie in [0, 1] and reverse the order of the counts; the least loaded model scores 1 and, unless
      all are equally loaded, the most loaded scores 0. */
  method Score(models: seq<Model>, count: Model -> Requests) returns (scores: map<Model, real>)
    ensures scores == AllScores(models, count)
    ensures forall m :: m in scores <==> m in models
    ensures forall m :: m in scores ==> 0.0 <= scores[m] <= 1.0
    ensures forall a, b :: a in scores && b in scores ==> (scores[a] < scores[b] <==> count(b) < count(a))
    ensures models != [] ==> exists m :: m in scores && scores[m] == 1.0
    ensures Differ(models, count) ==> exists m :: m in scores && scores[m] == 0.0
  {
    var least, most := Extremes(models, count);
    scores := map[];
    for i := 0 to |models|
      invariant forall m :: m in scores <==> m in models[..i]
      invariant forall m :: m in scores ==> scores[m] == Relative(least, most, count(m))
    {
      scores := scores[models[i] := Relative(least, most, count(models[i]))];
    }
    assert models[..|models|] == models;
    ScoresAreRelative(models, count, least, most, scores);
    assert scores == AllScores(models, count);
  }

  /** The scorer as the pipeline uses it; it never panics. */
  function AsPlugin(count: Model -> Requests): Scorer {
    Scorer("inflight-requests-scorer", (q: Query, models: seq<Model>) => Some(AllScores(models, count)))
  }

  /** Alone in a pipeline, with a positive weight, it makes the least loaded survivors win: no model with a best
      total has more requests in flight than another survivor. */
  lemma LeastLoadedWins(count: Model -> Requests, weight: real, q: Query, models: seq<Model>, n: Model, m: Model)
    requires weight > 0.0 && m in models && n in models
    requires forall k :: k in models ==>
               Total([WeightedScorer(AsPlugin(count), weight)], q, models, k) <=
               Total([WeightedScorer(AsPlugin(count), weight)], q, models, n)
    ensures count(n) <= count(m)
  {
    var s := WeightedScorer(AsPlugin(count), weight);
    var scores := ScoresOf(s, q, models);
    OneScorerDecides(s, q, models, m, n);
    ExtremesAreRight(models, count);
    ScoresAreRelative(models, count, Least(models, count), Most(models, count), scores);
    assert scores[m] <= scores[n];
  }

  /** A score is the share of the way from the most loaded model to the least loaded one. */
  predicate IsShare(score: real, least: int, most: int, c: int) {
    if most == least then score == 1.0 else score * ((most - least) as real) == (most - c) as real
  }

  lemma RelativeIsShare(least: int, most: int, c: int)
    requires least <= most
    ensures IsShare(Relative(least, most, c), least, most, c)
  {
    if least < most {
      Quotient((most - c) as real, (most - least) as real);
    }
  }

  lemma ExtremesAreUnique(models: seq<Model>, count: Model -> Requests, least: int, most: int)
    requires models != [] && IsLeast(models, count, least) && IsMost(models, count, most)
    ensures Least(models, count) == least && Most(models, count) == most && least <= most
  {
    ExtremesAreRight(models, count);
  }

  lemma ScoreIsShare(models: seq<Model>, count: Model -> Requests, least: int, most: int, m: Model)
    requires m in models && IsLeast(models, count, least) && IsMost(models, count, most)
    ensures IsShare(AllScores(models, count)[m], least, most, count(m))
  {
    ExtremesAreUnique(models, count, least, most);
    RelativeIsShare(least, most, count(m));
    assert AllScores(models, count)[m] == Relative(least, most, count(m));
  }

  lemma Quotient(x: real, n: real)
    requires n != 0.0
    ensures (x / n) * n == x
  {
  }

  lemma ScoresAreRelative(models: seq<Model>, count: Model -> Requests, least: int, most: int, scores: map<Model, real>)
    requires models != [] ==> IsLeast(models, count, least) && IsMost(models, count, most)
    requires forall m :: m in scores <==> m in models
    requires forall m :: m in scores ==> scores[m] == Relative(least, most, count(m))
    ensures forall m :: m in scores ==> 0.0 <= scores[m] <= 1.0
    ensures forall a, b :: a in scores && b in scores ==> (scores[a] < scores[b] <==> count(b) < count(a))
    ensures models != [] ==> exists m :: m in scores && scores[m] == 1.0
    ensures Differ(models, count) ==> exists m :: m in scores && scores[m] == 0.0
  {
    forall a, b | a in scores && b in scores
      ensures 0.0 <= scores[a] <= 1.0 && (scores[a] < scores[b] <==> count(b) < count(a))
    {
      RelativeReversesOrder(least, most, count(a), count(b));
    }
    if models != [] {
      var low :| low in models && count(low) == least;
      var high :| high in models && count(high) == most;
      RelativeReversesOrder(least, most, least, most);
      assert low in scores && high in scores;
      if Differ(models, count) {
        var a, b :| a in models && b in models && count(a) != count(b);
        assert least < most;
      }
    }
  }
}

/** The cost scorer. */
module CostScorer {
  import opened Common
  import opened Ranking
  import opened Selector
  import opened Datastore
  import Statistics

  /** A model's input token price, if it has prices. */
  type Pricing = Model -> Option<real>

  function PriceAt(price: Pricing, m: Model): real { if price(m).Some? then price(m).value else 0.0 }

  /** The input token prices of the models in order. */
  function Prices(models: seq<Model>, price: Pricing): seq<real> {
    if models == [] then [] else Prices(models[..|models| - 1], price) + [PriceAt(price, models[|models| - 1])]
  }

  predicate AllPriced(models: seq<Model>, price: Pricing) { forall m :: m in models ==> price(m).Some? }

  function Inverted(p: real, sum: real): real
    requires sum != 0.0
  {
    1.0 - p / sum
  }

  /** The score of a model of price p among these prices. */
  function ScoreOf(prices: seq<real>, p: real): real {
    if |prices| == 1 then 0.5
    else if Statistics.Sum(prices) == 0.0 then 1.0
    else Inverted(p, Statistics.Sum(prices))
  }

  /** All scores; a model without prices makes the source panic, but a single model is never asked for its. */
  function AllScores(models: seq<Model>, price: Pricing): Option<map<Model, real>> {
    if |models| == 1 || AllPriced(models, price)
    then Some(Assigned(models, (m: Model) => ScoreOf(Prices(models, price), PriceAt(price, m)))) else None
  }

  method SumPrices(models: seq<Model>, price: Pricing) returns (sum: Option<real>)
    ensures sum.Some? <==> AllPriced(models, price)
    ensures sum.Some? ==> sum.value == Statistics.Sum(Prices(models, price))
  {
    var total := 0.0;
    for i := 0 to |models|
      invariant AllPriced(models[..i], price)
      invariant total == Statistics.Sum(Prices(models[..i], price))
    {
      if price(models[i]).None? { return None; }
      assert models[..i + 1] == models[..i] + [models[i]];
      total := total + price(models[i]).value;
    }
    assert models[..|models|] == models;
    sum := Some(total);
  }

  /** None is the panic. */
  method Score(models: seq<Model>, price: Pricing) returns (scores: Option<map<Model, real>>)
    ensures scores == AllScores(models, price)
    ensures scores.Some? <==> |models| == 1 || AllPriced(models, price)
    ensures scores.Some? ==> forall m :: m in scores.value <==> m in models
    ensures |models| == 1 ==> scores.value[models[0]] == 0.5
    ensures scores.Some? && |models| != 1 ==>
              forall m :: m in models ==> scores.value[m] == ScoreOf(Prices(models, price), price(m).value)
  {
    PricesLength(models, price);
    if |models| == 1 {
      scores := Some(map[models[0] := 0.5]);
      assert scores.value == AllScores(models, price).value;
      return;
    }
    var sum := SumPrices(models, price);
    if sum.None? { return None; }
    var result: map<Model, real> := map[];
    for i := 0 to |models|
      invariant forall m :: m in result <==> m in models[..i]
      invariant forall m :: m in result ==>
        result[m] == if sum.value == 0.0 then 1.0 else Inverted(PriceAt(price, m), sum.value)
    {
      result := result[models[i] := if sum.value == 0.0 then 1.0 else Inverted(PriceAt(price, models[i]), sum.value)];
    }
    assert models[..|models|] == models;
    assert result == AllScores(models, price).value;
    scores := Some(result);
  }

  lemma {:induction false} PricesLength(models: seq<Model>, price: Pricing)
    ensures |Prices(models, price)| == |models|
  {
    if models != [] {
      PricesLength(models[..|models| - 1], price);
    }
  }

  lemma {:induction false} PricesAt(models: seq<Model>, price: Pricing, i: nat)
    requires i < |models|
    ensures |Prices(models, price)| == |models| && Prices(models, price)[i] == PriceAt(price, models[i])
  {
    PricesLength(models, price);
    PricesLength(models[..|models| - 1], price);
    if i < |models| - 1 {
      PricesAt(models[..|models| - 1], price, i);
    }
  }

  /** The scores of all models, each once. */
  function Scores(prices: seq<real>, sum: real): seq<real>
    requires sum != 0.0
  {
    if prices == [] then [] else Scores(prices[..|prices| - 1], sum) + [Inverted(prices[|prices| - 1], sum)]
  }

  lemma {:induction false} SumOfScores(prices: seq<real>, sum: real)
    requires sum != 0.0
    ensures Statistics.Sum(Scores(prices, sum)) == (|prices| as real) - Statistics.Sum(prices) / sum
  {
    if prices != [] {
      var front, last := prices[..|prices| - 1], prices[|prices| - 1];
      SumOfScores(front, sum);
      assert Scores(prices, sum)[..|Scores(prices, sum)| - 1] == Scores(front, sum);
      QuotientAdds(Statistics.Sum(front), last, sum);
    }
  }

  lemma QuotientAdds(x: real, y: real, n: real)
    requires n != 0.0
    ensures (x + y) / n == x / n + y / n
  {
  }

  lemma {:induction false} ScoresAt(prices: seq<real>, sum: real, i: nat)
    requires sum != 0.0 && i < |prices|
    ensures |Scores(prices, sum)| == |prices| && Scores(prices, sum)[i] == Inverted(prices[i], sum)
  {
    if |prices| > 1 {
      ScoresAt(prices[..|prices| - 1], sum, if i < |prices| - 1 then i else 0);
    }
  }

  lemma SelfQuotient(x: real)
    requires x != 0.0
    ensures x / x == 1.0
  {
  }

  /** Unless all are free, the scores of n >= 2 models add up to n - 1. */
  lemma ScoresAddUp(prices: seq<real>, sum: real)
    requires sum == Statistics.Sum(prices) && sum != 0.0 && |prices| >= 2
    ensures |Scores(prices, sum)| == |prices|
    ensures forall i :: 0 <= i < |prices| ==> Scores(prices, sum)[i] == ScoreOf(prices, prices[i])
    ensures Statistics.Sum(Scores(prices, sum)) == (|prices| as real) - 1.0
  {
    SumOfScores(prices, sum);
    SelfQuotient(sum);
    ScoresAt(prices, sum, 0);
    forall i | 0 <= i < |prices| ensures Scores(prices, sum)[i] == ScoreOf(prices, prices[i]) {
      ScoresAt(prices, sum, i);
    }
  }

  lemma {:induction false} SumCovers(prices: seq<real>, i: nat)
    requires i < |prices| && forall k :: 0 <= k < |prices| ==> prices[k] >= 0.0
    ensures Statistics.Sum(prices) >= prices[i]
    decreases |prices|
  {
    var front := prices[..|prices| - 1];
    if i < |front| {
      SumCovers(front, i);
    } else if front != [] {
      SumCovers(front, 0);
    }
  }

  /** With non-negative prices the scores lie in [0, 1], and unless all prices are 0 they reverse the order
      of the prices. */
  lemma ScoresReversePrices(prices: seq<real>, i: nat, j: nat)
    requires |prices| >= 2 && i < |prices| && j < |prices| && forall k :: 0 <= k < |prices| ==> prices[k] >= 0.0
    ensures 0.0 <= ScoreOf(prices, prices[i]) <= 1.0
    ensures (exists k :: 0 <= k < |prices| && prices[k] > 0.0) ==>
              (ScoreOf(prices, prices[i]) < ScoreOf(prices, prices[j]) <==> prices[j] < prices[i])
  {
    var sum := Statistics.Sum(prices);
    SumCovers(prices, i);
    if k :| 0 <= k < |prices| && prices[k] > 0.0 {
      SumCovers(prices, k);
    }
    if sum > 0.0 {
      InvertedOrder(prices[i], prices[j], sum);
      InvertedOrder(prices[i], 0.0, sum);
      InvertedOrder(prices[i], sum, sum);
    }
  }

  /** x lies above y by d in units of the sum. */
  predicate Apart(x: real, y: real, sum: real, d: real) { (x - y) * sum == d }

  /** Scores of several models differ as their prices do, in the other direction and in units of the sum; together
      with what they add up to this fixes them. With a sum of 0 all score 1. */
  lemma ScoresDifferAsPrices(prices: seq<real>, i: nat, j: nat)
    requires |prices| >= 2 && i < |prices| && j < |prices|
    ensures var sum, x, y := Statistics.Sum(prices), ScoreOf(prices, prices[i]), ScoreOf(prices, prices[j]);
            if sum == 0.0 then x == y == 1.0 else Apart(x, y, sum, prices[j] - prices[i])
  {
    var sum, p, q := Statistics.Sum(prices), prices[i], prices[j];
    if sum != 0.0 {
      InvertedDiffers(p, q, sum);
      assert ScoreOf(prices, p) == Inverted(p, sum) && ScoreOf(prices, q) == Inverted(q, sum);
    }
  }

  lemma InvertedDiffers(p: real, q: real, sum: real)
    requires sum != 0.0
    ensures Apart(Inverted(p, sum), Inverted(q, sum), sum, q - p)
  {
    Statistics.Divides(p, sum);
    Statistics.Divides(q, sum);
    ProductOfDifference(q / sum, p / sum, sum);
  }

  lemma ProductOfDifference(x: real, y: real, n: real)
    ensures (1.0 - y - (1.0 - x)) * n == Statistics.Mul(x, n) - Statistics.Mul(y, n)
  {
  }

  lemma InvertedOrder(p: real, q: real, sum: real)
    requires sum > 0.0
    ensures Inverted(p, sum) < Inverted(q, sum) <==> q < p
    ensures Inverted(0.0, sum) == 1.0 && Inverted(sum, sum) == 0.0
  {
  }

  /** The prices on the models' attribute maps. */
  function InputPrices(store: Models): Pricing {
    (m: Model) => if AttributesOf(store, m).prices.Some? then Some(AttributesOf(store, m).prices.value.input) else None
  }

  /** The scorer as the pipeline uses it, on this datastore. */
  function AsPlugin(price: Pricing): Scorer {
    Scorer("cost-scorer", (q: Query, models: seq<Model>) => AllScores(models, price))
  }

  /** With non-negative prices no score is clamped, and the order of scores is that of prices reversed. */
  lemma ScoresAreOrdered(models: seq<Model>, price: Pricing, m: Model, n: Model)
    requires AllPriced(models, price) && m in models && n in models
    requires forall k :: k in models ==> PriceAt(price, k) >= 0.0
    ensures var scores := AllScores(models, price).value;
            && 0.0 <= scores[m] <= 1.0
            && (scores[m] <= scores[n] && |models| >= 2 ==> PriceAt(price, n) <= PriceAt(price, m))
  {
    var i :| 0 <= i < |models| && models[i] == m;
    var j :| 0 <= j < |models| && models[j] == n;
    var prices := Prices(models, price);
    forall k | 0 <= k < |models| ensures |prices| == |models| && prices[k] == PriceAt(price, models[k]) && prices[k] >= 0.0 {
      PricesAt(models, price, k);
    }
    assert prices[i] == PriceAt(price, m) && prices[j] == PriceAt(price, n);
    if |models| >= 2 {
      ScoresReversePrices(prices, i, j);
      ScoresReversePrices(prices, j, i);
      if prices[j] > 0.0 {
        assert exists k :: 0 <= k < |prices| && prices[k] > 0.0;
      }
    }
  }

  /** Alone in a pipeline, with a positive weight and non-negative prices, it makes the cheapest survivors win. */
  lemma CheapestWins(price: Pricing, weight: real, q: Query, models: seq<Model>, n: Model, m: Model)
    requires weight > 0.0 && m in models && n in models && AllPriced(models, price)
    requires forall k :: k in models ==> PriceAt(price, k) >= 0.0
    requires forall k :: k in models ==>
               Total([WeightedScorer(AsPlugin(price), weight)], q, models, k) <=
               Total([WeightedScorer(AsPlugin(price), weight)], q, models, n)
    ensures PriceAt(price, n) <= PriceAt(price, m)
  {
    if |models| == 1 {
      assert models == [m] && n == m;
    } else {
      OneScorerDecides(WeightedScorer(AsPlugin(price), weight), q, models, m, n);
      ScoresAreOrdered(models, price, m, n);
      ScoresAreOrdered(models, price, n, m);
    }
  }
}

/** Selection by cost on a datastore that is synchronised with the models file. */
module CostSelection {
  import opened Common
  import opened Ranking
  import opened Selector
  import opened Datastore
  import opened ModelConfig
  import ModelSelection
  import CostScorer

  /** The cost scorer is number k, and no other scorer panics. */
  ghost predicate OnlyCostMayPanic(w: Wiring, k: nat, store: Models, q: Query) {
    && k < |w.scorers|
    && w.scorers[k].scorer == CostScorer.AsPlugin(CostScorer.InputPrices(store))
    && forall i, models :: 0 <= i < |w.scorers| && i != k ==> w.scorers[i].scorer.score(q, models).Some?
  }

  /** After every run of syncs and extractor writes the cost scorer finds a price exactly for the models the last file
      lists: the input price of the last valid entry, per token. */
  lemma PricedIffDesired(steps: seq<Step>, m: Model)
    ensures var price, entries := CostScorer.InputPrices(Run(steps))(m), LastConfig(steps).models;
            && (price.Some? <==> Desired(entries, m))
            && (price.Some? ==> exists i: nat ::
                  LastValid(entries, i) && entries[i].name == m && 1000000.0 * price.value == entries[i].inputPerMillion)
  {
    RunsReflectLastConfig(steps, m);
  }

  /** After every run of syncs and extractor writes, a selection that scores by cost and has a picker panics
      exactly when at least two models survive the filters and one of them is not listed as valid by the last
      file. */
  lemma CostSelectionPanicsIff(steps: seq<Step>, w: Wiring, k: nat, q: Query, candidates: seq<Model>)
    requires w.picker.Some? && OnlyCostMayPanic(w, k, Run(steps), q)
    ensures var models := Surviving(w.filters, q, candidates);
            PanicsOn(w, q, candidates) <==>
            |models| >= 2 && exists m :: m in models && !Desired(LastConfig(steps).models, m)
  {
    var models, price := Surviving(w.filters, q, candidates), CostScorer.InputPrices(Run(steps));
    forall m ensures price(m).Some? <==> Desired(LastConfig(steps).models, m) {
      PricedIffDesired(steps, m);
    }
    assert w.scorers[k].scorer.score(q, models) == CostScorer.AllScores(models, price);
    assert SomeScorerPanics(w.scorers, q, models) <==> CostScorer.AllScores(models, price).None?;
    assert |models| <= 1 ==> |models| == 1 || models == [];
  }

  /** Such a selection, on the plugin and its datastore. */
  method SelectByCost(
    p: ModelSelection.ModelSelectorPlugin, ghost steps: seq<Step>, ghost k: nat, q: Query, draw: nat -> nat)
    returns (r: RunResult, ghost candidates: seq<Model>)
    requires p.ds.models == Run(steps) && p.pipeline.picker.Some?
    requires OnlyCostMayPanic(p.pipeline.Value(), k, Run(steps), q)
    ensures ModelSelection.Lists(candidates, p.ds.models)
    ensures var models := Surviving(p.pipeline.filters, q, candidates);
            r.Panics? <==>
            && p.ds.models != map[] && |models| >= 2
            && exists m :: m in models && !Desired(LastConfig(steps).models, m)
  {
    r, candidates := p.Select(q, draw);
    CostSelectionPanicsIff(steps, p.pipeline.Value(), k, q, candidates);
  }
}
