/** The data layer's processor: a bounded event buffer with one dispatch loop, and the lifecycle of its goroutines. */
module EventBus {
  const DEFAULT_BUFFER_SIZE := 10000

  /** Where the event loop stands; `next` is the extractor the event goes to next. */
  datatype Loop<E> = Idle | Dispatching(event: E, next: nat) | Stopped

  /** An event as it met the buffer. */
  datatype Arrival<E> = Arrival(event: E, full: bool)

  datatype Bus<E> = Bus(
    buffer: seq<E>,
    loop: Loop<E>,
    cancelled: bool,
    arrivals: seq<Arrival<E>>,
    received: seq<seq<E>>)   // per extractor, what Extract has been called with

  /** Everything that can happen next, in any order: a notifier notifies, the loop takes an event or hands
      it to the next extractor (which may return an error), Stop cancels, the loop sees it and exits. */
  datatype Action<E> =
    | Notify(event: E)
    | Take
    | Hand(failed: bool)
    | Cancel
    | Exit

  function NewBus<E>(extractors: nat): Bus<E> {
    Bus([], Idle, false, [], seq(extractors, _ => []))
  }

  function Step<E>(b: Bus<E>, a: Action<E>): Bus<E> {
    match a
    case Notify(e) =>
      if |b.buffer| < DEFAULT_BUFFER_SIZE
      then b.(buffer := b.buffer + [e], arrivals := b.arrivals + [Arrival(e, false)])
      else b.(arrivals := b.arrivals + [Arrival(e, true)])
    case Take =>
      if b.loop.Idle? && b.buffer != []
      then b.(buffer := b.buffer[1..], loop := if b.received == [] then Idle else Dispatching(b.buffer[0], 0))
      else b
    case Hand(_) =>
      if b.loop.Dispatching? && b.loop.next < |b.received| then
        var k := b.loop.next;
        b.(received := b.received[k := b.received[k] + [b.loop.event]],
           loop := if k + 1 == |b.received| then Idle else b.loop.(next := k + 1))
      else b
    case Cancel => b.(cancelled := true)
    case Exit => if b.loop.Idle? && b.cancelled then b.(loop := Stopped) else b
  }

  function Run<E>(b: Bus<E>, actions: seq<Action<E>>): Bus<E>
    decreases |actions|
  {
    if actions == [] then b else Run(Step(b, actions[0]), actions[1..])
  }

  /** The notified events minus those that met a full buffer. */
  function Accepted<E>(arrivals: seq<Arrival<E>>): seq<E> {
    if arrivals == [] then [] else
      var last := arrivals[|arrivals| - 1];
      Accepted(arrivals[..|arrivals| - 1]) + if last.full then [] else [last.event]
  }

  function Notified<E>(actions: seq<Action<E>>): seq<E>
    decreases |actions|
  {
    if actions == [] then []
    else NotifiedBy(actions[0]) + Notified(actions[1..])
  }

  /** What extractor i is still to receive: the event being dispatched, if it is not past i, and the buffer. */
  function Ahead<E>(b: Bus<E>, i: nat): seq<E> {
    (if b.loop.Dispatching? && b.loop.next <= i then [b.loop.event] else []) + b.buffer
  }

  /** Each extractor has received the accepted events in order, up to those ahead of it. */
  ghost predicate Consistent<E>(b: Bus<E>) {
    && |b.buffer| <= DEFAULT_BUFFER_SIZE
    && (b.loop.Dispatching? ==> b.loop.next < |b.received|)
    && forall i :: 0 <= i < |b.received| ==> b.received[i] + Ahead(b, i) == Accepted(b.arrivals)
  }

  lemma AcceptedSnoc<E>(arrivals: seq<Arrival<E>>, a: Arrival<E>)
    ensures Accepted(arrivals + [a]) == Accepted(arrivals) + if a.full then [] else [a.event]
  {
    assert (arrivals + [a])[..|arrivals|] == arrivals;
  }

  lemma NewBusConsistent<E>(extractors: nat)
    ensures Consistent(NewBus<E>(extractors))
  {
  }

  /** One more extractor while nothing has been taken from the buffer. */
  function WithExtractor<E>(b: Bus<E>): Bus<E> { b.(received := b.received + [[]]) }

  lemma WithExtractorConsistent<E>(b: Bus<E>)
    requires Consistent(b) && b.loop.Idle? && b.buffer == Accepted(b.arrivals)
    ensures Consistent(WithExtractor(b))
  {
  }

  lemma NotifyConsistent<E>(b: Bus<E>, e: E)
    requires Consistent(b)
    ensures Consistent(Step(b, Notify(e)))
  {
    var b', full := Step(b, Notify(e)), !(|b.buffer| < DEFAULT_BUFFER_SIZE);
    AcceptedSnoc(b.arrivals, Arrival(e, full));
    var more := if full then [] else [e];
    forall i | 0 <= i < |b.received| ensures b'.received[i] + Ahead(b', i) == Accepted(b'.arrivals) {
      assert Ahead(b', i) == Ahead(b, i) + more;
      Reassociate(b.received[i], Ahead(b, i), more);
    }
  }

  lemma HandConsistent<E>(b: Bus<E>, failed: bool)
    requires Consistent(b)
    ensures Consistent(Step(b, Hand(failed)))
  {
    if b.loop.Dispatching? {
      var b', k := Step(b, Hand(failed)), b.loop.next;
      forall i | 0 <= i < |b.received| ensures b'.received[i] + Ahead(b', i) == Accepted(b'.arrivals) {
        if i == k {
          assert Ahead(b', k) == b.buffer;
          Reassociate(b.received[k], [b.loop.event], b.buffer);
        } else {
          assert b'.received[i] == b.received[i] && Ahead(b', i) == Ahead(b, i);
        }
      }
    }
  }

  lemma TakeConsistent<E>(b: Bus<E>)
    requires Consistent(b)
    ensures Consistent(Step(b, Take))
  {
    if b.loop.Idle? && b.buffer != [] {
      var b' := Step(b, Take);
      forall i | 0 <= i < |b.received| ensures b'.received[i] + Ahead(b', i) == Accepted(b'.arrivals) {
        assert Ahead(b', i) == Ahead(b, i);
      }
    }
  }

  lemma StepConsistent<E>(b: Bus<E>, a: Action<E>)
    requires Consistent(b)
    ensures Consistent(Step(b, a))
  {
    match a
    case Notify(e) => NotifyConsistent(b, e);
    case Hand(failed) => HandConsistent(b, failed);
    case Take => TakeConsistent(b);
    case Cancel =>
    case Exit =>
  }

  lemma {:induction false} RunConsistent<E>(b: Bus<E>, actions: seq<Action<E>>)
    requires Consistent(b)
    ensures Consistent(Run(b, actions))
    decreases |actions|
  {
    if actions != [] {
      StepConsistent(b, actions[0]);
      RunConsistent(Step(b, actions[0]), actions[1..]);
    }
  }

  function NotifiedBy<E>(a: Action<E>): seq<E> { if a.Notify? then [a.event] else [] }

  lemma StepArrivals<E>(b: Bus<E>, a: Action<E>)
    ensures Events(Step(b, a).arrivals) == Events(b.arrivals) + NotifiedBy(a)
    ensures |Step(b, a).received| == |b.received|
  {
    if a.Notify? {
      EventsSnoc(b.arrivals, Step(b, a).arrivals[|b.arrivals|]);
    } else {
      assert Step(b, a).arrivals == b.arrivals;
      assert Events(b.arrivals) + [] == Events(b.arrivals);
    }
  }

  lemma {:induction false} ArrivalsAreNotified<E>(b: Bus<E>, actions: seq<Action<E>>)
    ensures Events(Run(b, actions).arrivals) == Events(b.arrivals) + Notified(actions)
    ensures |Run(b, actions).received| == |b.received|
    decreases |actions|
  {
    if actions == [] {
      assert Events(b.arrivals) + [] == Events(b.arrivals);
    } else {
      StepArrivals(b, actions[0]);
      ArrivalsAreNotified(Step(b, actions[0]), actions[1..]);
      Reassociate(Events(b.arrivals), NotifiedBy(actions[0]), Notified(actions[1..]));
    }
  }

  lemma Reassociate<E>(a: seq<E>, b: seq<E>, c: seq<E>)
    ensures a + b + c == a + (b + c)
  {
  }

  function Events<E>(arrivals: seq<Arrival<E>>): seq<E> {
    if arrivals == [] then [] else Events(arrivals[..|arrivals| - 1]) + [arrivals[|arrivals| - 1].event]
  }

  lemma EventsSnoc<E>(arrivals: seq<Arrival<E>>, a: Arrival<E>)
    ensures Events(arrivals + [a]) == Events(arrivals) + [a.event]
  {
    assert (arrivals + [a])[..|arrivals|] == arrivals;
  }

  /** In every interleaving of notifiers, event loop and Stop, and whichever extractors return errors: the
      arrivals are the notified events in order; those accepted are the ones that found room; and between
      dispatches every extractor has received the same prefix of them, in order, all but what is buffered. */
  lemma EventsAreDelivered<E>(extractors: nat, actions: seq<Action<E>>)
    ensures var b := Run(NewBus<E>(extractors), actions);
            var accepted := Accepted(b.arrivals);
            && Events(b.arrivals) == Notified(actions)
            && |b.received| == extractors
            && |b.buffer| <= DEFAULT_BUFFER_SIZE
            && (!b.loop.Dispatching? ==>
                  forall i :: 0 <= i < extractors ==> b.received[i] + b.buffer == accepted)
            && (forall i :: 0 <= i < extractors ==> b.received[i] <= accepted)
  {
    var start := NewBus<E>(extractors);
    NewBusConsistent<E>(extractors);
    RunConsistent(start, actions);
    ArrivalsAreNotified(start, actions);
    var b := Run(start, actions);
    assert forall i :: 0 <= i < extractors && !b.loop.Dispatching? ==> Ahead(b, i) == b.buffer;
  }
}

/** Starting, stopping and registering while goroutines come and go. */
module ProcessorLifecycle {
  const JITTER_PER_COLLECTOR := 200   // milliseconds

  /** A registered collector; `id` is its place in the registration order. */
  datatype Entry = Entry(id: nat, frequency: int)

  /** A polling goroutine and the cap on its first delay. */
  datatype Poller = Poller(entry: Entry, jitterCap: int)

  datatype StartPc = NotStarted | Spawning(snapshot: seq<Entry>, next: nat, datasources: nat) | StartReturned
  datatype StopPc = NotStopped | Waiting | StopReturned

  datatype Life = Life(
    started: bool,
    stopped: bool,
    cancelled: bool,
    collectors: seq<Entry>,
    datasources: nat,
    pollers: seq<Poller>,       // every polling goroutine ever launched
    polling: set<nat>,          // those still running, by index
    sourcesPending: nat,        // RegisterDatasource calls between their unlock and their wg.Add
    sourcesRunning: nat,
    wg: int,
    start: StartPc,
    stop: StopPc,
    registeredAtStop: nat)

  const NewLife := Life(false, false, false, [], 0, [], {}, 0, 0, 0, NotStarted, NotStopped, 0)

  /** The atomic steps of the concurrent calls and of the goroutines. */
  datatype Action =
    | RegisterCollector(frequency: int)   // its critical section
    | RegisterDatasource                  // its critical section
    | LaunchDatasource                    // its wg.Add and go statement, after the unlock
    | StartLocked                         // Start's critical section
    | StartSpawn                          // one turn of Start's spawning loops, or its return
    | StopLocked                          // Stop's critical section, after Start returned
    | StopWait                            // wg.Wait returns
    | ParentCancel                        // the context given to Start is cancelled
    | PollerExits(index: nat)
    | DatasourceExits

  function Spawn(l: Life, e: Entry, jitterCap: int): Life {
    l.(pollers := l.pollers + [Poller(e, jitterCap)], polling := l.polling + {|l.pollers|}, wg := l.wg + 1)
  }

  function Min(a: int, b: int): int { if a < b then a else b }

  function Step(l: Life, a: Action): Life {
    match a
    case RegisterCollector(frequency) =>
      if frequency <= 0 then l else
        var e := Entry(|l.collectors|, frequency);
        var l' := l.(collectors := l.collectors + [e]);
        if l.started && !l.stopped then Spawn(l', e, frequency) else l'
    case RegisterDatasource =>
      l.(datasources := l.datasources + 1,
         sourcesPending := if l.started && !l.stopped then l.sourcesPending + 1 else l.sourcesPending)
    case LaunchDatasource =>
      if l.sourcesPending == 0 then l
      else l.(sourcesPending := l.sourcesPending - 1, sourcesRunning := l.sourcesRunning + 1, wg := l.wg + 1)
    case StartLocked =>
      if l.started || l.stopped then l
      else l.(started := true, start := Spawning(l.collectors, 0, l.datasources))
    case StartSpawn =>
      if !l.start.Spawning? then l
      else if l.start.next < |l.start.snapshot| then
        var e := l.start.snapshot[l.start.next];
        Spawn(l, e, Min(|l.start.snapshot| * JITTER_PER_COLLECTOR, e.frequency))
          .(start := l.start.(next := l.start.next + 1))
      else if l.start.datasources > 0 then
        l.(sourcesRunning := l.sourcesRunning + 1, wg := l.wg + 1,
           start := l.start.(datasources := l.start.datasources - 1))
      else l.(start := StartReturned)
    case StopLocked =>
      if l.start.StartReturned? && l.stop.NotStopped?
      then l.(stopped := true, cancelled := true, stop := Waiting, registeredAtStop := |l.collectors|)
      else l
    case StopWait => if l.stop.Waiting? && l.wg == 0 then l.(stop := StopReturned) else l
    case ParentCancel => if l.started then l.(cancelled := true) else l
    case PollerExits(i) =>
      if l.cancelled && i in l.polling then l.(polling := l.polling - {i}, wg := l.wg - 1) else l
    case DatasourceExits =>
      if l.cancelled && l.sourcesRunning > 0 then l.(sourcesRunning := l.sourcesRunning - 1, wg := l.wg - 1) else l
  }

  function Run(l: Life, actions: seq<Action>): Life
    decreases |actions|
  {
    if actions == [] then l else Run(Step(l, actions[0]), actions[1..])
  }

  /** Whether collector i should have its goroutine by now. */
  ghost predicate Due(l: Life, i: nat) {
    match l.start
    case NotStarted => false
    case Spawning(snapshot, next, _) => i < next || |snapshot| <= i < |l.collectors|
    case StartReturned => i < if l.stopped then l.registeredAtStop else |l.collectors|
  }

  ghost predicate Launched(l: Life, i: nat) { exists p :: 0 <= p < |l.pollers| && l.pollers[p].entry.id == i }

  ghost predicate PollersMatch(l: Life) {
    && (forall p :: 0 <= p < |l.pollers| ==>
          && l.pollers[p].entry.id < |l.collectors|
          && l.pollers[p].entry == l.collectors[l.pollers[p].entry.id]
          && 0 < l.pollers[p].jitterCap <= l.pollers[p].entry.frequency
          && Due(l, l.pollers[p].entry.id))
    && (forall p, q :: 0 <= p < q < |l.pollers| ==> l.pollers[p].entry.id != l.pollers[q].entry.id)
    && (forall i: nat :: Due(l, i) ==> Launched(l, i))
  }

  ghost predicate Accounted(l: Life) {
    && (forall i :: i in l.polling ==> i < |l.pollers|)
    && l.wg == |l.polling| + l.sourcesRunning
    && (l.started <==> !l.start.NotStarted?)
    && (l.stopped <==> !l.stop.NotStopped?)
    && (l.stopped ==> l.start.StartReturned? && l.registeredAtStop <= |l.collectors|)
    && (forall i :: 0 <= i < |l.collectors| ==> l.collectors[i].id == i && 0 < l.collectors[i].frequency)
    && (l.start.Spawning? ==> l.start.next <= |l.start.snapshot| && l.start.snapshot <= l.collectors)
    && (l.stop.StopReturned? ==> l.polling == {})
  }

  ghost predicate Inv(l: Life) { Accounted(l) && PollersMatch(l) }

  /** Launching the goroutine of a collector that has just become due. */
  lemma SpawnMatches(l: Life, l': Life, e: Entry, cap: int)
    requires PollersMatch(l)
    requires l'.pollers == l.pollers + [Poller(e, cap)] && l.collectors <= l'.collectors
    requires e.id < |l'.collectors| && l'.collectors[e.id] == e && 0 < cap <= e.frequency
    requires !Due(l, e.id)
    requires forall i: nat :: Due(l', i) <==> Due(l, i) || i == e.id
    ensures PollersMatch(l')
  {
    forall p | 0 <= p < |l.pollers| ensures l'.pollers[p] == l.pollers[p] && l.pollers[p].entry.id != e.id {
      assert Due(l, l.pollers[p].entry.id);
    }
    forall i: nat | Due(l', i) ensures Launched(l', i) {
      if i == e.id {
        assert l'.pollers[|l.pollers|].entry.id == i;
      } else {
        var p :| 0 <= p < |l.pollers| && l.pollers[p].entry.id == i;
        assert l'.pollers[p].entry.id == i;
      }
    }
  }

  /** A step that launches nothing and changes nothing about what is due. */
  lemma QuietMatches(l: Life, l': Life)
    requires PollersMatch(l) && l'.pollers == l.pollers && l.collectors <= l'.collectors
    requires forall i: nat :: Due(l', i) <==> Due(l, i)
    ensures PollersMatch(l')
  {
    forall i: nat | Due(l', i) ensures Launched(l', i) {
      assert Launched(l, i);
    }
  }

  lemma RegisterKeepsInv(l: Life, frequency: int)
    requires Inv(l)
    ensures Inv(Step(l, RegisterCollector(frequency)))
  {
    if frequency > 0 {
      var l' := Step(l, RegisterCollector(frequency));
      if l.started && !l.stopped {
        SpawnMatches(l, l', Entry(|l.collectors|, frequency), frequency);
      } else {
        QuietMatches(l, l');
      }
    }
  }

  lemma StartSpawnLaunches(l: Life)
    requires Inv(l) && l.start.Spawning? && l.start.next < |l.start.snapshot|
    ensures Inv(Step(l, StartSpawn))
  {
    var e := l.start.snapshot[l.start.next];
    assert e == l.collectors[l.start.next];
    SpawnMatches(l, Step(l, StartSpawn), e, Min(|l.start.snapshot| * JITTER_PER_COLLECTOR, e.frequency));
  }

  lemma StartSpawnEnds(l: Life)
    requires Inv(l) && l.start.Spawning? && l.start.next >= |l.start.snapshot|
    ensures Inv(Step(l, StartSpawn))
  {
    QuietMatches(l, Step(l, StartSpawn));
  }

  lemma StartSpawnKeepsInv(l: Life)
    requires Inv(l)
    ensures Inv(Step(l, StartSpawn))
  {
    if l.start.Spawning? {
      if l.start.next < |l.start.snapshot| {
        StartSpawnLaunches(l);
      } else {
        StartSpawnEnds(l);
      }
    }
  }

  /** Starting and stopping. */
  lemma SwitchKeepsInv(l: Life, a: Action)
    requires Inv(l) && (a.StartLocked? || a.StopLocked? || a.StopWait? || a.ParentCancel?)
    ensures Inv(Step(l, a))
  {
    QuietMatches(l, Step(l, a));
  }

  /** Goroutines coming and going. */
  lemma OtherKeepsInv(l: Life, a: Action)
    requires Inv(l) && (a.RegisterDatasource? || a.LaunchDatasource? || a.PollerExits? || a.DatasourceExits?)
    ensures Inv(Step(l, a))
  {
    QuietMatches(l, Step(l, a));
  }

  lemma StepKeepsInv(l: Life, a: Action)
    requires Inv(l)
    ensures Inv(Step(l, a))
  {
    match a
    case RegisterCollector(frequency) => RegisterKeepsInv(l, frequency);
    case StartSpawn => StartSpawnKeepsInv(l);
    case StartLocked => SwitchKeepsInv(l, a);
    case StopLocked => SwitchKeepsInv(l, a);
    case StopWait => SwitchKeepsInv(l, a);
    case ParentCancel => SwitchKeepsInv(l, a);
    case _ => OtherKeepsInv(l, a);
  }

  lemma {:induction false} RunKeepsInv(l: Life, actions: seq<Action>)
    requires Inv(l)
    ensures Inv(Run(l, actions))
    decreases |actions|
  {
    if actions != [] {
      StepKeepsInv(l, actions[0]);
      RunKeepsInv(Step(l, actions[0]), actions[1..]);
    }
  }

  /** In every interleaving, once Start has returned: each collector registered before Stop's critical section
      has exactly one polling goroutine, with a first delay capped by its own frequency; later ones have none;
      and when Stop returns no polling goroutine is left. */
  lemma CollectorsRunExactlyOnce(actions: seq<Action>)
    ensures var l := Run(NewLife, actions);
            l.start.StartReturned? ==>
              && (forall i: nat :: Launched(l, i) <==> i < if l.stopped then l.registeredAtStop else |l.collectors|)
              && (forall p, q :: 0 <= p < q < |l.pollers| ==> l.pollers[p].entry.id != l.pollers[q].entry.id)
              && (forall p :: 0 <= p < |l.pollers| ==>
                    && l.pollers[p].entry.id < |l.collectors|
                    && l.pollers[p].entry == l.collectors[l.pollers[p].entry.id]
                    && 0 < l.pollers[p].jitterCap <= l.pollers[p].entry.frequency)
              && (l.stop.StopReturned? ==> l.polling == {})
  {
    RunKeepsInv(NewLife, actions);
    var l := Run(NewLife, actions);
    forall i: nat ensures l.start.StartReturned? && Launched(l, i) ==> Due(l, i) {
      if Launched(l, i) {
        var p :| 0 <= p < |l.pollers| && l.pollers[p].entry.id == i;
      }
    }
  }

  lemma StoppedStep(l: Life, a: Action)
    requires Inv(l) && l.stop.StopReturned?
    ensures var l' := Step(l, a);
            && l'.stop.StopReturned? && l'.polling == {} && l'.pollers == l.pollers
            && (l.sourcesPending == 0 && l.sourcesRunning == 0 ==> l'.sourcesPending == 0 && l'.sourcesRunning == 0)
  {
  }

  lemma {:induction false} NothingStartsAfterStop(l: Life, actions: seq<Action>)
    requires Inv(l) && l.stop.StopReturned?
    ensures var l' := Run(l, actions);
            l'.stop.StopReturned? && l'.polling == {} && l'.pollers == l.pollers
    ensures l.sourcesPending == 0 && l.sourcesRunning == 0 ==> Run(l, actions).sourcesRunning == 0
    decreases |actions|
  {
    if actions != [] {
      StepKeepsInv(l, actions[0]);
      StoppedStep(l, actions[0]);
      NothingStartsAfterStop(Step(l, actions[0]), actions[1..]);
    }
  }

  /** Because RegisterDatasource calls wg.Add after its unlock, Stop can return and a data source start
      afterwards: exactly when such a call was still between the two. */
  lemma DatasourceOutlivesStopIffPending(l: Life)
    requires Inv(l) && l.stop.StopReturned? && l.sourcesRunning == 0
    ensures (exists actions :: Run(l, actions).sourcesRunning > 0) <==> l.sourcesPending > 0
  {
    if l.sourcesPending > 0 {
      var actions := [LaunchDatasource];
      assert Run(l, actions) == Run(Step(l, LaunchDatasource), actions[1..]);
      assert Run(l, actions).sourcesRunning > 0;
    } else {
      forall actions ensures Run(l, actions).sourcesRunning == 0 {
        NothingStartsAfterStop(l, actions);
      }
    }
  }

  /** And such an interleaving exists. */
  lemma DatasourceCanOutliveStop()
    ensures exists actions ::
              var l := Run(NewLife, actions);
              Inv(l) && l.stop.StopReturned? && l.sourcesRunning == 0 && l.sourcesPending > 0
  {
    var actions := [StartLocked, StartSpawn, RegisterDatasource, StopLocked, StopWait];
    var l1 := Step(NewLife, StartLocked);
    var l2 := Step(l1, StartSpawn);
    var l3 := Step(l2, RegisterDatasource);
    var l4 := Step(l3, StopLocked);
    var l5 := Step(l4, StopWait);
    assert actions[1..] == [StartSpawn, RegisterDatasource, StopLocked, StopWait];
    assert actions[1..][1..] == [RegisterDatasource, StopLocked, StopWait];
    assert actions[1..][1..][1..] == [StopLocked, StopWait];
    assert actions[1..][1..][1..][1..] == [StopWait];
    assert Run(NewLife, actions) == l5;
    RunKeepsInv(NewLife, actions);
  }
}

/** The processor's methods as they update its fields, each critical section as one step. */
module DataLayerProcessor {
  import EventBus
  import ProcessorLifecycle

  class Processor<E> {
    var ch: seq<E>
    var inboxes: seq<seq<E>>   // per registered extractor, what Extract has been called with
    var collectors: seq<ProcessorLifecycle.Entry>
    var started: bool
    var stopped: bool
    ghost var bus: EventBus.Bus<E>
    ghost var life: ProcessorLifecycle.Life

    /** The ghost machines are the fields plus the history the fields do not keep. */
    ghost predicate ValidBus()
      reads `bus, `ch, `inboxes
    {
      bus.buffer == ch && bus.received == inboxes && EventBus.Consistent(bus)
    }

    ghost predicate ValidLife()
      reads `life, `collectors, `started, `stopped
    {
      && life.collectors == collectors && life.started == started && life.stopped == stopped
      && ProcessorLifecycle.Inv(life)
    }

    constructor ()
      ensures ValidBus() && ValidLife() && bus == EventBus.NewBus(0) && life == ProcessorLifecycle.NewLife
    {
      ch, inboxes, collectors, started, stopped := [], [], [], false, false;
      bus, life := EventBus.NewBus(0), ProcessorLifecycle.NewLife;
      EventBus.NewBusConsistent<E>(0);
      new;
      assert bus.received == [];
    }

    /** An extractor registered after Start is ignored; before Start nothing has been taken. */
    method RegisterExtractor()
      requires ValidBus() && (!started ==> bus.loop.Idle? && bus.buffer == EventBus.Accepted(bus.arrivals))
      modifies `inboxes, `bus
      ensures ValidBus()
      ensures bus == if started then old(bus) else EventBus.WithExtractor(old(bus))
    {
      if started {
        return;
      }
      EventBus.WithExtractorConsistent(bus);
      bus := EventBus.WithExtractor(bus);
      inboxes := inboxes + [[]];
    }

    /** Never blocks: a full buffer drops the event. */
    method Notify(e: E) returns (accepted: bool)
      requires ValidBus()
      modifies `ch, `bus
      ensures ValidBus()
      ensures bus == EventBus.Step(old(bus), EventBus.Notify(e))
      ensures accepted <==> |old(ch)| < EventBus.DEFAULT_BUFFER_SIZE
      ensures ch == if accepted then old(ch) + [e] else old(ch)
    {
      EventBus.StepConsistent(bus, EventBus.Notify(e));
      accepted := |ch| < EventBus.DEFAULT_BUFFER_SIZE;
      bus := EventBus.Step(bus, EventBus.Notify(e));
      if accepted {
        ch := ch + [e];
      }
    }

    /** The dispatch of one event to every extractor in turn. */
    method HandToAll(e: E)
      requires EventBus.Consistent(bus) && bus.received == inboxes
      requires bus.loop == if inboxes == [] then EventBus.Idle else EventBus.Dispatching(e, 0)
      modifies `inboxes, `bus
      ensures EventBus.Consistent(bus) && bus.received == inboxes && bus.loop.Idle?
      ensures bus.buffer == old(bus.buffer) && bus.arrivals == old(bus.arrivals)
      ensures |inboxes| == |old(inboxes)|
      ensures forall i :: 0 <= i < |inboxes| ==> inboxes[i] == old(inboxes)[i] + [e]
    {
      var k := 0;
      while k < |inboxes|
        invariant 0 <= k <= |inboxes| == |old(inboxes)|
        invariant EventBus.Consistent(bus) && bus.received == inboxes
        invariant bus.buffer == old(bus.buffer) && bus.arrivals == old(bus.arrivals)
        invariant bus.loop == if k == |inboxes| then EventBus.Idle else EventBus.Dispatching(e, k)
        invariant forall i :: 0 <= i < |inboxes| ==>
                    inboxes[i] == if i < k then old(inboxes)[i] + [e] else old(inboxes)[i]
      {
        EventBus.HandConsistent(bus, false);
        bus := EventBus.Step(bus, EventBus.Hand(false));
        inboxes := inboxes[k := inboxes[k] + [e]];
        k := k + 1;
      }
    }

    /** One turn of the event loop's select that takes an event. */
    method DispatchOne() returns (e: E)
      requires ValidBus() && ch != [] && bus.loop.Idle?
      modifies `ch, `inboxes, `bus
      ensures ValidBus() && bus.loop.Idle?
      ensures e == old(ch)[0] && ch == old(ch)[1..] && bus.arrivals == old(bus.arrivals)
      ensures |inboxes| == |old(inboxes)|
      ensures forall i :: 0 <= i < |inboxes| ==> inboxes[i] == old(inboxes)[i] + [e]
    {
      e := ch[0];
      ch := ch[1..];
      EventBus.TakeConsistent(bus);
      bus := EventBus.Step(bus, EventBus.Take);
      HandToAll(e);
    }

    method RegisterCollector(frequency: int) returns (launched: bool)
      requires ValidLife()
      modifies `collectors, `life
      ensures ValidLife()
      ensures life == ProcessorLifecycle.Step(old(life), ProcessorLifecycle.RegisterCollector(frequency))
      ensures launched <==> 0 < frequency && started && !stopped
    {
      ProcessorLifecycle.StepKeepsInv(life, ProcessorLifecycle.RegisterCollector(frequency));
      life := ProcessorLifecycle.Step(life, ProcessorLifecycle.RegisterCollector(frequency));
      if frequency <= 0 {
        return false;
      }
      collectors := collectors + [ProcessorLifecycle.Entry(|collectors|, frequency)];
      launched := started && !stopped;
    }

    /** Start's critical section; false when already started or stopped. */
    method StartLocked() returns (ok: bool, snapshot: seq<ProcessorLifecycle.Entry>)
      requires ValidLife()
      modifies `started, `life
      ensures ValidLife()
      ensures life == ProcessorLifecycle.Step(old(life), ProcessorLifecycle.StartLocked)
      ensures ok <==> !old(started) && !old(stopped)
      ensures ok ==> snapshot == collectors
    {
      ProcessorLifecycle.StepKeepsInv(life, ProcessorLifecycle.StartLocked);
      life := ProcessorLifecycle.Step(life, ProcessorLifecycle.StartLocked);
      snapshot := [];
      if started || stopped {
        return false, [];
      }
      started := true;
      return true, collectors;
    }

    /** Stop's critical section. */
    method StopLocked()
      requires ValidLife() && life.start.StartReturned? && !stopped
      modifies `stopped, `life
      ensures ValidLife() && stopped
      ensures life == ProcessorLifecycle.Step(old(life), ProcessorLifecycle.StopLocked)
    {
      ProcessorLifecycle.StepKeepsInv(life, ProcessorLifecycle.StopLocked);
      life := ProcessorLifecycle.Step(life, ProcessorLifecycle.StopLocked);
      stopped := true;
    }
  }
}
