/** Token counts in the three response formats. */
module TokenCounts {
  import opened Common
  import opened Json

  datatype Counts = Counts(prompt: real, completion: real)

  /** Both counts must be numbers above 0. */
  function Positive(usage: Object, promptKey: string, completionKey: string): (r: Option<Counts>)
    ensures r.Some? ==> r.value.prompt > 0.0 && r.value.completion > 0.0
  {
    var p, c := NumberAt(usage, promptKey), NumberAt(usage, completionKey);
    if p <= 0.0 || c <= 0.0 then None else Some(Counts(p, c))
  }

  /** Google's usageMetadata goes first; within usage, prompt_tokens makes it OpenAI's format even when the
      counts are unusable, and only otherwise input_tokens makes it Anthropic's. */
  function ExtractTokenCounts(body: Object): (r: Option<Counts>)
    ensures r.Some? ==> r.value.prompt > 0.0 && r.value.completion > 0.0
    ensures ObjectAt(body, "usageMetadata").None? && ObjectAt(body, "usage").None? ==> r.None?
  {
    if ObjectAt(body, "usageMetadata").Some? then
      Positive(ObjectAt(body, "usageMetadata").value, "promptTokenCount", "candidatesTokenCount")
    else if ObjectAt(body, "usage").Some? then
      var usage := ObjectAt(body, "usage").value;
      if "prompt_tokens" in usage then Positive(usage, "prompt_tokens", "completion_tokens")
      else if "input_tokens" in usage then Positive(usage, "input_tokens", "output_tokens")
      else None
    else None
  }

  datatype Format = Google | OpenAI | Anthropic

  function PromptKey(f: Format): string {
    match f case Google => "promptTokenCount" case OpenAI => "prompt_tokens" case Anthropic => "input_tokens"
  }

  function CompletionKey(f: Format): string {
    match f case Google => "candidatesTokenCount" case OpenAI => "completion_tokens" case Anthropic => "output_tokens"
  }

  /** A response body reports usage in a format: the field that announces the format is there, and none that
      takes precedence over it. */
  ghost predicate Reports(body: Object, f: Format, usage: Object) {
    match f
    case Google => ObjectAt(body, "usageMetadata") == Some(usage)
    case OpenAI => ObjectAt(body, "usageMetadata").None? && ObjectAt(body, "usage") == Some(usage) && "prompt_tokens" in usage
    case Anthropic =>
      && ObjectAt(body, "usageMetadata").None? && ObjectAt(body, "usage") == Some(usage)
      && "prompt_tokens" !in usage && "input_tokens" in usage
  }

  ghost predicate Holds(usage: Object, f: Format, p: real, c: real) {
    && PromptKey(f) in usage && usage[PromptKey(f)] == Num(p)
    && CompletionKey(f) in usage && usage[CompletionKey(f)] == Num(c)
  }

  /** Counts are accepted exactly when the body reports them, both positive, in one of the formats. */
  lemma CountsAreReported(body: Object, p: real, c: real)
    ensures ExtractTokenCounts(body) == Some(Counts(p, c)) <==>
            p > 0.0 && c > 0.0 && exists f, usage :: Reports(body, f, usage) && Holds(usage, f, p, c)
  {
    if ObjectAt(body, "usageMetadata").Some? {
      assert Reports(body, Google, ObjectAt(body, "usageMetadata").value);
    } else if ObjectAt(body, "usage").Some? {
      var usage := ObjectAt(body, "usage").value;
      if "prompt_tokens" in usage {
        assert Reports(body, OpenAI, usage);
      } else if "input_tokens" in usage {
        assert Reports(body, Anthropic, usage);
      }
    }
  }
}

/** One model's cost accumulator through every run of batches. */
module CostWindows {
  import opened Common

  /** Durations in clock units; a window of 0 never ends, a flush interval of 0 publishes every time. */
  datatype Settings = Settings(flushInterval: nat, window: nat)

  /** modelCostAccumulator; the digest is the multiset of the costs added to it. */
  datatype Acc = Acc(digest: multiset<real>, lastFlush: int, lastWindowStart: int)

  /** A model's accumulator and the snapshot on its attribute map. */
  datatype View = View(acc: Option<Acc>, published: Option<multiset<real>>)

  const Untouched := View(None, None)

  function Open(acc: Option<Acc>, now: int): Acc {
    if acc.Some? then acc.value else Acc(multiset{}, now, now)
  }

  predicate Expired(s: Settings, a: Acc, now: int) { s.window > 0 && now - a.lastWindowStart >= s.window }

  function Windowed(s: Settings, a: Acc, now: int): Acc {
    if Expired(s, a, now) then a.(digest := multiset{}, lastWindowStart := now) else a
  }

  function Add(a: Acc, cost: real): Acc { a.(digest := a.digest + multiset{cost}) }

  /** The accumulator after one batch's accepted costs for the model. */
  function Observed(s: Settings, acc: Option<Acc>, now: int, costs: seq<real>): Option<Acc> {
    if costs == [] then acc else
      Some(Add(Windowed(s, Open(Observed(s, acc, now, costs[..|costs| - 1]), now), now), costs[|costs| - 1]))
  }

  predicate Due(s: Settings, a: Acc, now: int) { s.flushInterval == 0 || now - a.lastFlush >= s.flushInterval }

  function Flushed(s: Settings, v: View, now: int): View {
    if v.acc.Some? && Due(s, v.acc.value, now)
    then View(Some(v.acc.value.(lastFlush := now)), Some(v.acc.value.digest))
    else v
  }

  /** A batch at some time with these accepted costs for the model, or the datastore losing the model. */
  datatype Step = Batch(now: int, costs: seq<real>) | Lost

  function After(s: Settings, v: View, step: Step): View {
    match step
    case Lost => v.(published := None)
    case Batch(now, costs) =>
      if costs == [] then v else Flushed(s, v.(acc := Observed(s, v.acc, now, costs)), now)
  }

  function Run(s: Settings, steps: seq<Step>): View {
    if steps == [] then Untouched else After(s, Run(s, steps[..|steps| - 1]), steps[|steps| - 1])
  }

  predicate Samples(step: Step) { step.Batch? && step.costs != [] }

  /** The clock never goes back. */
  ghost predicate Clocked(steps: seq<Step>) {
    forall i, j :: 0 <= i < j < |steps| && steps[i].Batch? && steps[j].Batch? ==> steps[i].now <= steps[j].now
  }

  /** Every accepted cost with a time of t or later. */
  function Since(steps: seq<Step>, t: int): multiset<real> {
    if steps == [] then multiset{} else
      var last := steps[|steps| - 1];
      Since(steps[..|steps| - 1], t) + (if last.Batch? && last.now >= t then multiset(last.costs) else multiset{})
  }

  // ---------- one batch ----------

  /** In closed form: a batch resets the accumulator at most once, before its first cost, and then adds all
      its costs. */
  lemma {:induction false} BatchResetsAtMostOnce(s: Settings, acc: Option<Acc>, now: int, costs: seq<real>)
    requires costs != []
    ensures var a := Windowed(s, Open(acc, now), now);
            Observed(s, acc, now, costs) == Some(a.(digest := a.digest + multiset(costs)))
  {
    var front, last := costs[..|costs| - 1], costs[|costs| - 1];
    assert costs == front + [last];
    assert multiset(costs) == multiset(front) + multiset{last};
    if front != [] {
      BatchResetsAtMostOnce(s, acc, now, front);
      var a := Windowed(s, Open(acc, now), now);
      assert a.digest + multiset(costs) == a.digest + multiset(front) + multiset{last};
    }
  }

  // ---------- windows ----------

  /** The window start is the time of some sample, no sample lies after the window's end, and the digest is
      exactly the costs since the start. */
  ghost predicate Exact(s: Settings, steps: seq<Step>, a: Acc) {
    && a.digest == Since(steps, a.lastWindowStart)
    && (exists i :: 0 <= i < |steps| && Samples(steps[i]) && steps[i].now == a.lastWindowStart)
    && (s.window > 0 ==> AllBefore(steps, a.lastWindowStart + s.window))
  }

  ghost predicate AllBefore(steps: seq<Step>, t: int) {
    forall i :: 0 <= i < |steps| && Samples(steps[i]) ==> steps[i].now < t
  }

  lemma {:induction false} SinceNothing(steps: seq<Step>, t: int)
    requires AllBefore(steps, t)
    ensures Since(steps, t) == multiset{}
  {
    if steps != [] {
      var front, last := steps[..|steps| - 1], steps[|steps| - 1];
      assert forall i :: 0 <= i < |front| ==> front[i] == steps[i];
      SinceNothing(front, t);
      if last.Batch? && last.costs == [] {
        assert multiset(last.costs) == multiset{};
      }
    }
  }

  lemma SinceSnoc(steps: seq<Step>, step: Step, t: int)
    ensures Since(steps + [step], t) ==
            Since(steps, t) + (if step.Batch? && step.now >= t then multiset(step.costs) else multiset{})
  {
    assert (steps + [step])[..|steps|] == steps;
  }

  lemma QuietStep(s: Settings, steps: seq<Step>, step: Step, a: Acc, a': Acc)
    requires Exact(s, steps, a) && !Samples(step)
    requires a'.digest == a.digest && a'.lastWindowStart == a.lastWindowStart
    ensures Exact(s, steps + [step], a')
  {
    SinceSnoc(steps, step, a.lastWindowStart);
    var i :| 0 <= i < |steps| && Samples(steps[i]) && steps[i].now == a.lastWindowStart;
    assert (steps + [step])[i] == steps[i];
  }

  lemma FirstOrExpired(s: Settings, steps: seq<Step>, step: Step, a: Acc)
    requires Samples(step) && AllBefore(steps, step.now)
    requires a.digest == multiset(step.costs) && a.lastWindowStart == step.now
    ensures Exact(s, steps + [step], a)
  {
    var all := steps + [step];
    SinceSnoc(steps, step, step.now);
    SinceNothing(steps, step.now);
    assert all[|steps|] == step;
  }

  lemma InsideWindow(s: Settings, steps: seq<Step>, step: Step, a: Acc, a': Acc)
    requires Exact(s, steps, a) && Samples(step) && !Expired(s, a, step.now) && Clocked(steps + [step])
    requires a'.digest == a.digest + multiset(step.costs) && a'.lastWindowStart == a.lastWindowStart
    ensures Exact(s, steps + [step], a')
  {
    var all := steps + [step];
    SinceSnoc(steps, step, a.lastWindowStart);
    var i :| 0 <= i < |steps| && Samples(steps[i]) && steps[i].now == a.lastWindowStart;
    assert all[i] == steps[i] && all[|steps|] == step;
  }

  lemma ClockedFront(steps: seq<Step>)
    requires Clocked(steps) && steps != []
    ensures Clocked(steps[..|steps| - 1])
  {
  }

  ghost predicate NoSamples(steps: seq<Step>) { forall i :: 0 <= i < |steps| ==> !Samples(steps[i]) }

  ghost predicate Tracked(s: Settings, steps: seq<Step>, acc: Option<Acc>) {
    && (acc.None? <==> NoSamples(steps))
    && (acc.Some? ==> Exact(s, steps, acc.value))
  }

  lemma SamplesSnoc(steps: seq<Step>, step: Step)
    ensures NoSamples(steps + [step]) <==> NoSamples(steps) && !Samples(step)
  {
    var all := steps + [step];
    assert all[|steps|] == step && forall i :: 0 <= i < |steps| ==> all[i] == steps[i];
  }

  lemma BatchStep(s: Settings, steps: seq<Step>, step: Step, acc: Option<Acc>)
    requires Tracked(s, steps, acc) && Samples(step) && Clocked(steps + [step])
    ensures Tracked(s, steps + [step], Observed(s, acc, step.now, step.costs))
  {
    var a := Observed(s, acc, step.now, step.costs).value;
    SamplesSnoc(steps, step);
    BatchResetsAtMostOnce(s, acc, step.now, step.costs);
    assert multiset{} + multiset(step.costs) == multiset(step.costs);
    if acc.None? {
      FirstOrExpired(s, steps, step, a);
    } else if Expired(s, acc.value, step.now) {
      FirstOrExpired(s, steps, step, a);
    } else {
      InsideWindow(s, steps, step, acc.value, a);
    }
  }

  /** Flushing touches neither the digest nor the window. */
  lemma FlushKeeps(s: Settings, steps: seq<Step>, v: View, now: int)
    requires Tracked(s, steps, v.acc)
    ensures Tracked(s, steps, Flushed(s, v, now).acc)
  {
  }

  /** In every run with a clock that never goes back, a model has an accumulator once a cost of its was
      accepted, and its digest is exactly the multiset of its accepted costs since the window started; with
      windowing on, all of them lie in the half-open window from there. */
  lemma {:induction false} DigestIsWindow(s: Settings, steps: seq<Step>)
    requires Clocked(steps)
    ensures Tracked(s, steps, Run(s, steps).acc)
  {
    if steps != [] {
      var front, step := steps[..|steps| - 1], steps[|steps| - 1];
      assert steps == front + [step];
      ClockedFront(steps);
      DigestIsWindow(s, front);
      var v := Run(s, front);
      if Samples(step) {
        BatchStep(s, front, step, v.acc);
        FlushKeeps(s, steps, v.(acc := Observed(s, v.acc, step.now, step.costs)), step.now);
      } else {
        SamplesSnoc(front, step);
        if v.acc.Some? {
          QuietStep(s, front, step, v.acc.value, v.acc.value);
        }
      }
    }
  }

  /** Without windowing the digest holds every cost ever accepted. */
  lemma WithoutWindows(s: Settings, steps: seq<Step>, t: int)
    requires Clocked(steps) && s.window == 0 && Run(s, steps).acc.Some?
    requires forall i :: 0 <= i < |steps| && steps[i].Batch? ==> t <= steps[i].now
    ensures Run(s, steps).acc.value.digest == Since(steps, t)
  {
    DigestIsWindow(s, steps);
    var a := Run(s, steps).acc.value;
    StartsFirst(s, steps);
    SinceEarlier(steps, t, a.lastWindowStart);
  }

  /** No sample is older than t. */
  ghost predicate NoneBefore(steps: seq<Step>, t: int) {
    forall i :: 0 <= i < |steps| && Samples(steps[i]) ==> t <= steps[i].now
  }

  lemma NoneBeforeSnoc(steps: seq<Step>, step: Step, t: int)
    requires NoneBefore(steps, t) && (Samples(step) ==> t <= step.now)
    ensures NoneBefore(steps + [step], t)
  {
    var all := steps + [step];
    assert forall i :: 0 <= i < |all| ==> all[i] == if i < |steps| then steps[i] else step;
  }

  lemma StartedBefore(s: Settings, steps: seq<Step>, step: Step, a: Acc)
    requires Exact(s, steps, a) && Clocked(steps + [step]) && step.Batch?
    ensures a.lastWindowStart <= step.now
  {
    var all := steps + [step];
    var i :| 0 <= i < |steps| && Samples(steps[i]) && steps[i].now == a.lastWindowStart;
    assert all[i] == steps[i] && all[|steps|] == step;
  }

  lemma {:induction false} StartsFirst(s: Settings, steps: seq<Step>)
    requires Clocked(steps) && s.window == 0 && Run(s, steps).acc.Some?
    ensures NoneBefore(steps, Run(s, steps).acc.value.lastWindowStart)
  {
    var front, step := steps[..|steps| - 1], steps[|steps| - 1];
    assert steps == front + [step];
    ClockedFront(steps);
    DigestIsWindow(s, front);
    if Samples(step) {
      BatchResetsAtMostOnce(s, Run(s, front).acc, step.now, step.costs);
    }
    if Run(s, front).acc.Some? {
      StartsFirst(s, front);
      if Samples(step) {
        StartedBefore(s, front, step, Run(s, front).acc.value);
      }
    }
    NoneBeforeSnoc(front, step, Run(s, steps).acc.value.lastWindowStart);
  }

  lemma {:induction false} SinceEarlier(steps: seq<Step>, t: int, u: int)
    requires NoneBefore(steps, t) && NoneBefore(steps, u)
    ensures Since(steps, t) == Since(steps, u)
  {
    if steps != [] {
      var front, last := steps[..|steps| - 1], steps[|steps| - 1];
      assert forall i :: 0 <= i < |front| ==> front[i] == steps[i];
      SinceEarlier(front, t, u);
      if last.Batch? && last.costs == [] {
        assert multiset(last.costs) == multiset{};
      }
    }
  }

  // ---------- publishing ----------

  /** Step k of the run publishes a snapshot. */
  ghost predicate Publishes(s: Settings, steps: seq<Step>, k: nat) {
    && k < |steps| && Samples(steps[k])
    && Due(s, Observed(s, Run(s, steps[..k]).acc, steps[k].now, steps[k].costs).value, steps[k].now)
  }

  /** No step from k on publishes. */
  ghost predicate QuietFrom(s: Settings, steps: seq<Step>, k: nat) {
    forall j: nat :: k <= j < |steps| ==> !Publishes(s, steps, j)
  }

  lemma PublishesFront(s: Settings, steps: seq<Step>, k: nat)
    requires k < |steps| - 1
    ensures Publishes(s, steps[..|steps| - 1], k) <==> Publishes(s, steps, k)
  {
    var front := steps[..|steps| - 1];
    assert front[..k] == steps[..k] && front[k] == steps[k];
  }

  lemma QuietFront(s: Settings, steps: seq<Step>, k: nat)
    requires steps != [] && QuietFrom(s, steps, k)
    ensures QuietFrom(s, steps[..|steps| - 1], k)
  {
    var front := steps[..|steps| - 1];
    forall j: nat | k <= j < |front| ensures !Publishes(s, front, j) {
      PublishesFront(s, steps, j);
    }
  }

  lemma QuietSnoc(s: Settings, steps: seq<Step>, k: nat)
    requires steps != [] && QuietFrom(s, steps[..|steps| - 1], k) && !Publishes(s, steps, |steps| - 1)
    ensures QuietFrom(s, steps, k)
  {
    forall j: nat | k <= j < |steps| ensures !Publishes(s, steps, j) {
      if j < |steps| - 1 {
        PublishesFront(s, steps, j);
      }
    }
  }

  lemma OnlyPublishingPuts(s: Settings, steps: seq<Step>)
    requires steps != [] && !Publishes(s, steps, |steps| - 1) && Run(s, steps).published.Some?
    ensures Run(s, steps[..|steps| - 1]).published.Some?
  {
  }

  /** After a publication, the flush time is its time until the next one, and the snapshot, unless lost with
      its model, is the digest of that moment. */
  lemma {:induction false} LastPublication(s: Settings, steps: seq<Step>, k: nat)
    requires Publishes(s, steps, k) && QuietFrom(s, steps, k + 1)
    ensures var v, at := Run(s, steps), Run(s, steps[..k + 1]);
            && v.acc.Some? && v.acc.value.lastFlush == steps[k].now
            && at.acc.Some? && (v.published.Some? ==> v.published.value == at.acc.value.digest)
    decreases |steps|
  {
    var n := |steps| - 1;
    var front, step := steps[..n], steps[n];
    if k < n {
      PublishesFront(s, steps, k);
      QuietFront(s, steps, k + 1);
      LastPublication(s, front, k);
      assert front[..k + 1] == steps[..k + 1];
      assert !Publishes(s, steps, n);
      if Samples(step) {
        BatchResetsAtMostOnce(s, Run(s, front).acc, step.now, step.costs);
      }
    } else {
      assert steps[..k + 1] == steps;
      BatchResetsAtMostOnce(s, Run(s, front).acc, step.now, step.costs);
    }
  }

  /** A snapshot on the attribute map was put there by the last publication. */
  lemma {:induction false} SnapshotWasPublished(s: Settings, steps: seq<Step>) returns (k: nat)
    requires Run(s, steps).published.Some?
    ensures Publishes(s, steps, k) && QuietFrom(s, steps, k + 1)
    ensures Run(s, steps[..k + 1]).acc.Some?
    ensures Run(s, steps).published.value == Run(s, steps[..k + 1]).acc.value.digest
  {
    var n := |steps| - 1;
    var front := steps[..n];
    if Publishes(s, steps, n) {
      k := n;
    } else {
      OnlyPublishingPuts(s, steps);
      k := SnapshotWasPublished(s, front);
      PublishesFront(s, steps, k);
      QuietSnoc(s, steps, k + 1);
    }
    LastPublication(s, steps, k);
  }

  /** Publications of one model are at least the flush interval apart. */
  lemma {:induction false} PublicationsAreSpaced(s: Settings, steps: seq<Step>, i: nat, j: nat)
    requires Clocked(steps) && i < j && Publishes(s, steps, i) && Publishes(s, steps, j)
    ensures steps[j].now - steps[i].now >= s.flushInterval
    decreases j
  {
    var before := steps[..j];
    PublishesBefore(s, steps, i, j);
    if QuietFrom(s, before, i + 1) {
      LastPublication(s, before, i);
      BatchResetsAtMostOnce(s, Run(s, before).acc, steps[j].now, steps[j].costs);
    } else {
      var m: nat :| i + 1 <= m < |before| && Publishes(s, before, m);
      PublishesBefore(s, steps, m, j);
      PublicationsAreSpaced(s, steps, i, m);
    }
  }

  // ---------- when a digest is published, told by what can be observed ----------

  /** Step k brings the model's first sample. */
  ghost predicate Creates(s: Settings, steps: seq<Step>, k: nat) {
    k < |steps| && Samples(steps[k]) && Run(s, steps[..k]).acc.None?
  }

  /** Step k brings a sample, and leaves the live digest as the snapshot and its time as the flush time. */
  ghost predicate Shows(s: Settings, steps: seq<Step>, k: nat) {
    && k < |steps| && Samples(steps[k])
    && var v := Run(s, steps[..k + 1]);
       v.acc.Some? && v.acc.value.lastFlush == steps[k].now && v.published == Some(v.acc.value.digest)
  }

  ghost predicate Marks(s: Settings, steps: seq<Step>, k: nat) { Creates(s, steps, k) || Shows(s, steps, k) }

  lemma MarksPrefix(s: Settings, steps: seq<Step>, n: nat, k: nat)
    requires k < n <= |steps|
    ensures Marks(s, steps[..n], k) <==> Marks(s, steps, k)
  {
    assert steps[..n][..k] == steps[..k] && steps[..n][..k + 1] == steps[..k + 1] && steps[..n][k] == steps[k];
  }

  /** What one step does to the flush time. */
  lemma FlushTimeStep(s: Settings, steps: seq<Step>)
    requires steps != []
    ensures var n := |steps| - 1;
            var v, v' := Run(s, steps[..n]), Run(s, steps);
            && (Creates(s, steps, n) ==> v'.acc.Some? && v'.acc.value.lastFlush == steps[n].now)
            && (v.acc.Some? ==> v'.acc.Some? && (v'.acc.value.lastFlush == v.acc.value.lastFlush || Shows(s, steps, n)))
  {
    var n := |steps| - 1;
    assert steps[..n + 1] == steps;
    if Samples(steps[n]) {
      BatchResetsAtMostOnce(s, Run(s, steps[..n]).acc, steps[n].now, steps[n].costs);
    }
  }

  lemma {:induction false} FlushTimeIsMarked(s: Settings, steps: seq<Step>) returns (k: nat)
    requires Run(s, steps).acc.Some?
    ensures Marks(s, steps, k) && Run(s, steps).acc.value.lastFlush == steps[k].now
  {
    var n := |steps| - 1;
    var before := Run(s, steps[..n]).acc;
    FlushTimeStep(s, steps);
    assert steps[..n + 1] == steps;
    if before.Some? && Run(s, steps).acc.value.lastFlush == before.value.lastFlush {
      k := FlushTimeIsMarked(s, steps[..n]);
      MarksPrefix(s, steps, n, k);
    } else {
      k := n;
    }
  }

  lemma {:induction false} FlushTimeGrows(s: Settings, steps: seq<Step>, k: nat)
    requires Clocked(steps) && Marks(s, steps, k)
    ensures Run(s, steps).acc.Some? && Run(s, steps).acc.value.lastFlush >= steps[k].now
    decreases |steps|
  {
    var n := |steps| - 1;
    FlushTimeStep(s, steps);
    assert steps[..n + 1] == steps;
    if k < n {
      var front := steps[..n];
      MarksPrefix(s, steps, n, k);
      ClockedFront(steps);
      FlushTimeGrows(s, front, k);
      assert front[k] == steps[k];
      assert Shows(s, steps, n) ==> steps[k].now <= steps[n].now;
    }
  }

  /** No sample created the accumulator or was shown less than a flush interval before step k, nor creates it now. */
  ghost predicate Rested(s: Settings, steps: seq<Step>, k: nat)
    requires k < |steps| && steps[k].Batch?
  {
    && !Creates(s, steps, k)
    && forall j: nat :: j < k && Marks(s, steps, j) ==> steps[k].now - steps[j].now >= s.flushInterval
  }

  lemma RestedIffDue(s: Settings, steps: seq<Step>, k: nat)
    requires Clocked(steps) && k < |steps| && Samples(steps[k]) && s.flushInterval > 0
    ensures Rested(s, steps, k) <==> Run(s, steps[..k]).acc.Some? && Due(s, Run(s, steps[..k]).acc.value, steps[k].now)
  {
    var before := steps[..k];
    if Run(s, before).acc.Some? {
      var m := FlushTimeIsMarked(s, before);
      MarksPrefix(s, steps, k, m);
      forall j: nat | j < k && Marks(s, steps, j) ensures Run(s, before).acc.value.lastFlush >= steps[j].now {
        MarksPrefix(s, steps, k, j);
        FlushTimeGrows(s, before, j);
      }
    }
  }

  /** One batch with a sample, by the accumulator before it. */
  lemma SampleIsPublished(s: Settings, v: View, now: int, costs: seq<real>)
    requires costs != []
    ensures var v' := After(s, v, Batch(now, costs));
            && v'.acc.Some?
            && (if s.flushInterval == 0 || (v.acc.Some? && Due(s, v.acc.value, now))
                then v'.acc.value.lastFlush == now && v'.published == Some(v'.acc.value.digest)
                else v'.published == v.published &&
                     v'.acc.value.lastFlush == if v.acc.Some? then v.acc.value.lastFlush else now)
  {
    BatchResetsAtMostOnce(s, v.acc, now, costs);
  }

  /** Exactly when a sample is published, over every run whose clock never goes back: always without a flush
      interval, and otherwise when nothing was created or published within the interval before it. The snapshot is
      then the live digest; if not, snapshot and flush time stay. */
  lemma PublishedIffRested(s: Settings, steps: seq<Step>, k: nat)
    requires Clocked(steps) && k < |steps| && Samples(steps[k])
    ensures if s.flushInterval == 0 || Rested(s, steps, k) then Shows(s, steps, k)
            else var v, v' := Run(s, steps[..k]), Run(s, steps[..k + 1]);
                 v'.published == v.published && v'.acc.Some? &&
                 v'.acc.value.lastFlush == if v.acc.Some? then v.acc.value.lastFlush else steps[k].now
  {
    var v, now, costs := Run(s, steps[..k]), steps[k].now, steps[k].costs;
    assert steps[..k + 1][..k] == steps[..k];
    assert Run(s, steps[..k + 1]) == After(s, v, Batch(now, costs));
    SampleIsPublished(s, v, now, costs);
    if s.flushInterval > 0 {
      RestedIffDue(s, steps, k);
    }
  }

  lemma PublishesBefore(s: Settings, steps: seq<Step>, i: nat, j: nat)
    requires i < j <= |steps|
    ensures Publishes(s, steps[..j], i) <==> Publishes(s, steps, i)
  {
    assert steps[..j][..i] == steps[..i] && steps[..j][i] == steps[i];
  }

  /** Window starts of one model: a reset happens at least a window's length after the previous start. */
  lemma ResetsAreSpaced(s: Settings, steps: seq<Step>, k: nat)
    requires k < |steps| && Run(s, steps[..k]).acc.Some?
    ensures var a, a' := Run(s, steps[..k]).acc.value, Run(s, steps[..k + 1]).acc;
            && a'.Some?
            && (a'.value.lastWindowStart != a.lastWindowStart ==>
                  s.window > 0 && a'.value.lastWindowStart >= a.lastWindowStart + s.window)
  {
    assert steps[..k + 1][..k] == steps[..k];
    if Samples(steps[k]) {
      BatchResetsAtMostOnce(s, Run(s, steps[..k]).acc, steps[k].now, steps[k].costs);
    }
  }
}

/** The extractor that feeds the accumulators from response events and publishes their snapshots. */
module CostExtractor {
  import opened Common
  import opened Json
  import opened Datastore
  import opened CostWindows
  import TokenCounts
  import Handlers
  import Ranking

  type Model = Ranking.Model

  const COST_DIGEST := "cost_digest"

  /** The model a response event is about; requests, and bodies without a usable model name, are skipped. */
  function ModelNamed(e: Handlers.Event): Option<Model> {
    if e.ResponseEvent? && StringAt(e.request.body, "model") != "" then Some(StringAt(e.request.body, "model"))
    else None
  }

  function Cost(c: TokenCounts.Counts, p: TokenPrices): real { c.prompt * p.input + c.completion * p.output }

  /** Prompt tokens are charged at the input price only and completion tokens at the output price only; with
      valid prices no cost is negative. */
  lemma CostChargesEachSide(c: TokenCounts.Counts, p: TokenPrices)
    ensures Cost(c.(prompt := 0.0), p) == c.completion * p.output
    ensures Cost(c.(completion := 0.0), p) == c.prompt * p.input
    ensures Cost(c, p) == Cost(c.(prompt := 0.0), p) + Cost(c.(completion := 0.0), p)
    ensures c.prompt > 0.0 && c.completion > 0.0 && p.input >= 0.0 && p.output >= 0.0 ==> Cost(c, p) >= 0.0
  {
    assert 0.0 * p.input == 0.0 && 0.0 * p.output == 0.0;
    if c.prompt > 0.0 && c.completion > 0.0 && p.input >= 0.0 && p.output >= 0.0 {
      Charge(c.prompt, p.input);
      Charge(c.completion, p.output);
    }
  }

  lemma Charge(tokens: real, price: real)
    requires tokens > 0.0 && price >= 0.0
    ensures tokens * price >= 0.0
  {
  }

  /** The cost the event adds to model m: one sample when it names m, m has prices and the usage is usable. */
  function CostFor(models: Models, e: Handlers.Event, m: Model): seq<real> {
    if ModelNamed(e) == Some(m) && AttributesOf(models, m).prices.Some? &&
       TokenCounts.ExtractTokenCounts(e.response.body).Some?
    then [Cost(TokenCounts.ExtractTokenCounts(e.response.body).value, AttributesOf(models, m).prices.value)]
    else []
  }

  /** Exactly what is charged: an event adds a cost to a model when it is a response to a request whose "model" names
      it, the model has prices, and the response reports positive counts in one of the formats; the cost is then
      prompt tokens at the input price plus completion tokens at the output price. */
  lemma CostIsCharged(models: Models, e: Handlers.Event, m: Model, cost: real)
    ensures CostFor(models, e, m) == [cost] <==>
            && e.ResponseEvent? && m != "" && "model" in e.request.body && e.request.body["model"] == Str(m)
            && Charges(models, e.response.body, m, cost)
    ensures |CostFor(models, e, m)| <= 1
  {
    if e.ResponseEvent? {
      var body := e.response.body;
      var counts := TokenCounts.ExtractTokenCounts(body);
      if counts.Some? {
        TokenCounts.CountsAreReported(body, counts.value.prompt, counts.value.completion);
        assert Reported(body, counts.value.prompt, counts.value.completion);
      }
      if Charges(models, body, m, cost) {
        var p, c :|
          && p > 0.0 && c > 0.0 && Reported(body, p, c) && m in models && models[m].prices.Some?
          && cost == Cost(TokenCounts.Counts(p, c), models[m].prices.value);
        TokenCounts.CountsAreReported(body, p, c);
      }
    }
  }

  ghost predicate Reported(body: Object, prompt: real, completion: real) {
    exists f, usage :: TokenCounts.Reports(body, f, usage) && TokenCounts.Holds(usage, f, prompt, completion)
  }

  ghost predicate Charges(models: Models, body: Object, m: Model, cost: real) {
    exists prompt, completion ::
      && prompt > 0.0 && completion > 0.0 && Reported(body, prompt, completion)
      && m in models && models[m].prices.Some?
      && cost == Cost(TokenCounts.Counts(prompt, completion), models[m].prices.value)
  }

  function CostsFor(models: Models, events: seq<Handlers.Event>, m: Model): seq<real> {
    if events == [] then []
    else CostsFor(models, events[..|events| - 1], m) + CostFor(models, events[|events| - 1], m)
  }

  lemma CostsSnoc(models: Models, events: seq<Handlers.Event>, e: Handlers.Event, m: Model)
    ensures CostsFor(models, events + [e], m) == CostsFor(models, events, m) + CostFor(models, e, m)
  {
    assert (events + [e])[..|events|] == events;
  }

  /** The models some event is about. */
  function Named(events: seq<Handlers.Event>): set<Model> {
    if events == [] then {} else
      var m := ModelNamed(events[|events| - 1]);
      Named(events[..|events| - 1]) + (if m.Some? then {m.value} else {})
  }

  lemma {:induction false} NamedByResponses(events: seq<Handlers.Event>, m: Model)
    ensures m in Named(events) <==> m != "" && exists i :: 0 <= i < |events| && IsAbout(events[i], m)
  {
    if events != [] {
      var front, last := events[..|events| - 1], events[|events| - 1];
      NamedByResponses(front, m);
      assert forall i :: 0 <= i < |front| ==> front[i] == events[i];
    }
  }

  /** A response to a request whose "model" is this. */
  predicate IsAbout(e: Handlers.Event, m: Model) {
    e.ResponseEvent? && "model" in e.request.body && e.request.body["model"] == Str(m)
  }

  lemma NamedSnoc(events: seq<Handlers.Event>, e: Handlers.Event)
    ensures Named(events + [e]) == Named(events) + (if ModelNamed(e).Some? then {ModelNamed(e).value} else {})
  {
    assert (events + [e])[..|events|] == events;
  }

  lemma {:induction false} SampledIsNamed(models: Models, events: seq<Handlers.Event>, m: Model)
    requires CostsFor(models, events, m) != []
    ensures m in Named(events)
  {
    if CostFor(models, events[|events| - 1], m) == [] {
      SampledIsNamed(models, events[..|events| - 1], m);
    }
  }

  function SnapshotIn(a: Attributes): Option<multiset<real>> {
    if COST_DIGEST in a.others && a.others[COST_DIGEST].CostDigest? then Some(a.others[COST_DIGEST].samples) else None
  }

  function AccAt(state: map<Model, Acc>, m: Model): Option<Acc> { if m in state then Some(state[m]) else None }

  ghost predicate SameAttributes(a: Models, b: Models) { forall m :: AttributesOf(a, m) == AttributesOf(b, m) }

  /** Every model's accumulator has taken in its costs of these events, in order. */
  ghost predicate AllObserved(
    s: Settings, before: map<Model, Acc>, after: map<Model, Acc>, now: int, models: Models, events: seq<Handlers.Event>)
  {
    forall m :: AccAt(after, m) == Observed(s, AccAt(before, m), now, CostsFor(models, events, m))
  }

  lemma OneCost(models: Models, e: Handlers.Event, m: Model)
    ensures CostsFor(models, [e], m) == CostFor(models, e, m)
  {
    assert [e][..0] == [];
    assert [] + CostFor(models, e, m) == CostFor(models, e, m);
  }

  lemma OneSample(s: Settings, state: map<Model, Acc>, now: int, models: Models, e: Handlers.Event, model: Model)
    requires CostFor(models, e, model) != []
    ensures AllObserved(s, state,
              state[model := Add(Windowed(s, Open(AccAt(state, model), now), now), CostFor(models, e, model)[0])],
              now, models, [e])
  {
    var state' := state[model := Add(Windowed(s, Open(AccAt(state, model), now), now), CostFor(models, e, model)[0])];
    forall m ensures AccAt(state', m) == Observed(s, AccAt(state, m), now, CostsFor(models, [e], m)) {
      OneCost(models, e, m);
      ObserveOne(s, AccAt(state, m), now, [], CostFor(models, e, m));
      assert [] + CostFor(models, e, m) == CostFor(models, e, m);
    }
  }

  lemma NoSample(s: Settings, state: map<Model, Acc>, now: int, models: Models, e: Handlers.Event)
    requires forall m :: CostFor(models, e, m) == []
    ensures AllObserved(s, state, state, now, models, [e])
  {
    forall m ensures AccAt(state, m) == Observed(s, AccAt(state, m), now, CostsFor(models, [e], m)) {
      OneCost(models, e, m);
    }
  }

  /** Exactly the models with a sample among these events. */
  ghost predicate Sampled(updated: set<Model>, models: Models, events: seq<Handlers.Event>) {
    forall m :: m in updated <==> CostsFor(models, events, m) != []
  }

  lemma SampledSnoc(updated: set<Model>, models: Models, events: seq<Handlers.Event>, e: Handlers.Event, one: Option<Model>)
    requires Sampled(updated, models, events) && forall m :: one == Some(m) <==> CostFor(models, e, m) != []
    ensures Sampled(if one.Some? then updated + {one.value} else updated, models, events + [e])
  {
    var all, updated' := events + [e], if one.Some? then updated + {one.value} else updated;
    forall m ensures m in updated' <==> CostsFor(models, all, m) != [] {
      CostsSnoc(models, events, e, m);
    }
  }

  lemma ThenObserved(
    s: Settings, start: map<Model, Acc>, before: map<Model, Acc>, after: map<Model, Acc>, now: int,
    models: Models, events: seq<Handlers.Event>, e: Handlers.Event)
    requires AllObserved(s, start, before, now, models, events) && AllObserved(s, before, after, now, models, [e])
    ensures AllObserved(s, start, after, now, models, events + [e])
  {
    var all := events + [e];
    forall m ensures AccAt(after, m) == Observed(s, AccAt(start, m), now, CostsFor(models, all, m)) {
      CostsSnoc(models, events, e, m);
      OneCost(models, e, m);
      var costs, one := CostsFor(models, events, m), CostFor(models, e, m);
      assert AccAt(before, m) == Observed(s, AccAt(start, m), now, costs);
      assert AccAt(after, m) == Observed(s, AccAt(before, m), now, one);
      ObserveOne(s, AccAt(start, m), now, costs, one);
      ObserveOne(s, AccAt(before, m), now, [], one);
      assert [] + one == one;
    }
  }

  /** What the extractor leaves alone: everything but the snapshot. */
  ghost predicate SameButSnapshot(a: Attributes, b: Attributes) {
    && a.prices == b.prices && a.groups == b.groups
    && a.others - {COST_DIGEST} == b.others - {COST_DIGEST}
  }

  class RequestCostMetadataExtractor {
    const ds: Store
    const settings: Settings
    var state: map<Model, Acc>

    constructor (ds: Store, settings: Settings)
      ensures this.ds == ds && this.settings == settings && state == map[]
    {
      this.ds, this.settings, state := ds, settings, map[];
    }

    ghost function ViewOf(m: Model): View
      reads this, ds
    {
      View(AccAt(state, m), SnapshotIn(AttributesOf(ds.models, m)))
    }

    method GetOrCreateAccumulator(model: Model, now: int) returns (acc: Acc)
      modifies this`state
      ensures acc == Open(AccAt(old(state), model), now) && state == old(state)[model := acc]
    {
      if model in state { return state[model]; }
      acc := Acc(multiset{}, now, now);
      state := state[model := acc];
    }

    /** The window check and the addition of one accepted cost. */
    method AddSample(model: Model, now: int, cost: real)
      modifies this`state
      ensures state == old(state)[model := Add(Windowed(settings, Open(AccAt(old(state), model), now), now), cost)]
    {
      var acc := GetOrCreateAccumulator(model, now);
      if settings.window > 0 && now - acc.lastWindowStart >= settings.window {
        acc := acc.(digest := multiset{}, lastWindowStart := now);
      }
      state := state[model := acc.(digest := acc.digest + multiset{cost})];
    }

    /** One event: nothing, or one sample for the model it names, which is created if it is new. */
    method Observe(e: Handlers.Event, now: int, ghost models: Models) returns (sampled: Option<Model>)
      requires SameAttributes(ds.models, models)
      modifies this`state, ds
      ensures ds.models.Keys == old(ds.models).Keys + (if ModelNamed(e).Some? then {ModelNamed(e).value} else {})
      ensures SameAttributes(ds.models, models)
      ensures forall m :: sampled == Some(m) <==> CostFor(models, e, m) != []
      ensures AllObserved(settings, old(state), state, now, models, [e])
    {
      if !e.ResponseEvent? || StringAt(e.request.body, "model") == "" {
        NoSample(settings, state, now, models, e);
        return None;
      }
      var model := StringAt(e.request.body, "model");
      assert AttributesOf(ds.models, model) == AttributesOf(models, model);
      var attributes := ds.GetOrCreateModel(model);
      var counts := TokenCounts.ExtractTokenCounts(e.response.body);
      if attributes.prices.None? || counts.None? {
        NoSample(settings, state, now, models, e);
        return None;
      }
      ghost var before := state;
      AddSample(model, now, Cost(counts.value, attributes.prices.value));
      OneSample(settings, before, now, models, e, model);
      sampled := Some(model);
    }

    /** The loop over the batch. */
    method Ingest(now: int, events: seq<Handlers.Event>) returns (updated: set<Model>)
      modifies this`state, ds
      ensures ds.models.Keys == old(ds.models).Keys + Named(events)
      ensures SameAttributes(ds.models, old(ds.models))
      ensures Sampled(updated, old(ds.models), events)
      ensures AllObserved(settings, old(state), state, now, old(ds.models), events)
    {
      ghost var models, start, done := ds.models, state, [];
      updated := {};
      for i := 0 to |events|
        invariant done == events[..i]
        invariant ds.models.Keys == models.Keys + Named(done)
        invariant SameAttributes(ds.models, models)
        invariant Sampled(updated, models, done)
        invariant AllObserved(settings, start, state, now, models, done)
      {
        var e := events[i];
        ghost var before := state;
        var sampled := Observe(e, now, models);
        NamedSnoc(done, e);
        SampledSnoc(updated, models, done, e, sampled);
        ThenObserved(settings, start, before, state, now, models, done, e);
        done := done + [e];
        if sampled.Some? {
          updated := updated + {sampled.value};
        }
      }
      assert done == events;
    }

    method FlushOne(model: Model, now: int)
      requires model in state
      modifies this`state, ds
      ensures ViewOf(model) == Flushed(settings, old(ViewOf(model)), now)
      ensures forall m :: m != model ==> ViewOf(m) == old(ViewOf(m))
      ensures state.Keys == old(state).Keys
      ensures old(ds.models).Keys <= ds.models.Keys <= old(ds.models).Keys + {model}
      ensures forall m :: SameButSnapshot(AttributesOf(ds.models, m), AttributesOf(old(ds.models), m))
    {
      var acc := state[model];
      if settings.flushInterval > 0 && now - acc.lastFlush < settings.flushInterval { return; }
      state := state[model := acc.(lastFlush := now)];
      var a := ds.GetOrCreateModel(model);
      ds.PutAttributes(model, a.(others := a.others[COST_DIGEST := CostDigest(acc.digest)]));
    }

    /** The loop over the updated models, in whatever order the map yields them. */
    method FlushUpdated(now: int, updated: set<Model>)
      requires updated <= state.Keys
      modifies this`state, ds
      ensures forall m :: ViewOf(m) == if m in updated then Flushed(settings, old(ViewOf(m)), now) else old(ViewOf(m))
      ensures old(ds.models).Keys <= ds.models.Keys <= old(ds.models).Keys + updated
      ensures forall m :: SameButSnapshot(AttributesOf(ds.models, m), AttributesOf(old(ds.models), m))
    {
      var todo := updated;
      while todo != {}
        invariant todo <= updated <= state.Keys
        invariant old(ds.models).Keys <= ds.models.Keys <= old(ds.models).Keys + updated
        invariant forall m ::
          ViewOf(m) == if m in updated && m !in todo then Flushed(settings, old(ViewOf(m)), now) else old(ViewOf(m))
        invariant forall m :: SameButSnapshot(AttributesOf(ds.models, m), AttributesOf(old(ds.models), m))
        decreases todo
      {
        var m :| m in todo;
        FlushOne(m, now);
        todo := todo - {m};
      }
    }

    /** For every model at once, a batch is one step of that model's run. Every model named is in the
        datastore afterwards, with or without prices. */
    method Extract(now: int, events: seq<Handlers.Event>)
      modifies this`state, ds
      ensures forall m :: ViewOf(m) ==
                CostWindows.After(settings, old(ViewOf(m)), Batch(now, CostsFor(old(ds.models), events, m)))
      ensures ds.models.Keys == old(ds.models).Keys + Named(events)
      ensures forall m :: SameButSnapshot(AttributesOf(ds.models, m), AttributesOf(old(ds.models), m))
    {
      var updated := Ingest(now, events);
      forall m | m in updated ensures m in state && m in Named(events) {
        SampledIsNamed(old(ds.models), events, m);
        assert AccAt(state, m).Some?;
      }
      FlushUpdated(now, updated);
    }
  }

  lemma ObserveOne(s: Settings, acc: Option<Acc>, now: int, costs: seq<real>, one: seq<real>)
    requires |one| <= 1
    ensures Observed(s, acc, now, costs + one) ==
            if one == [] then Observed(s, acc, now, costs)
            else Some(Add(Windowed(s, Open(Observed(s, acc, now, costs), now), now), one[0]))
  {
    if one == [] {
      assert costs + one == costs;
    } else {
      assert (costs + one)[..|costs|] == costs;
    }
  }
}
