/**
 Where the guarantee ends: orders of service in which the pipeline opens an alert without a full run of high
 samples.
 */
module PrematureAlerts {
  import opened Model
  import opened Redis
  import opened RunLength
  import opened Schedules
  import opened FallbackRuns
  import opened OutageCounts
  import opened ServiceOrders
  import opened Thresholds
  import opened Queue
  import opened Monitor
  import opened LedgerRuns
  import opened AlertRuns

  // A cycle whose CPU sample is high or not, and served by memory or by Redis.
  datatype Served = Served(byMemory: bool, high: bool)

  function ConditionServed(x: Served): AlertCondition {
    if x.high then CONDITION_HIGH else CONDITION_NORMAL
  }

  function InputFor(x: Served): Input {
    var cpu := if x.high then 100.0 else 0.0;
    Input(Metrics(cpu, 0.0, 0.0, 1.0, 0.0, 0.0, 1.0, 0), Clocks(Clock(0, 0), Clock(0, 0)))
  }

  function InputsFor(xs: seq<Served>): seq<Input> {
    seq(|xs|, i requires 0 <= i < |xs| => InputFor(xs[i]))
  }

  predicate OffRedis(xs: seq<Served>) {
    xs != [] && xs[|xs| - 1].byMemory
  }

  /** The events of the CPU samples: a resync comes between a sample served by memory and the next served by Redis. */
  function Order(xs: seq<Served>): seq<Event> {
    if xs == [] then [] else
    var front, x := xs[..|xs| - 1], xs[|xs| - 1];
    Order(front) + OrderOf(OffRedis(front), x)
  }

  function OrderOf(off: bool, x: Served): seq<Event> {
    if x.byMemory then [ByMemory(ConditionServed(x))]
    else (if off then [Resynced] else []) + [ByRedis(ConditionServed(x))]
  }

  function OpsFor(xs: seq<Served>): seq<Op> {
    if xs == [] then [] else OpsFor(xs[..|xs| - 1]) + CycleOps(InputFor(xs[|xs| - 1]).metrics)
  }

  // Only Redis commands fail, and no time passes; the table and the queue are empty at the start.
  function Start(refused: set<nat>): Setting {
    Setting(Outside(Refusing(refused), (k: nat) => Done, (k: nat) => Done), 1, LIMITS, 0,
            Ledger(map[], 1, 0, 0, 0, QueueState([], 0), []))
  }

  lemma {:induction false} OpsAreFor(refused: set<nat>, xs: seq<Served>)
    ensures OpsAfter(Start(refused), InputsFor(xs)) == OpsFor(xs)
  {
    if xs != [] {
      OpsAreFor(refused, xs[..|xs| - 1]);
      assert InputsFor(xs)[..|xs| - 1] == InputsFor(xs[..|xs| - 1]);
    }
  }

  lemma {:induction false} CyclesOps(x: Served)
    ensures CycleOps(InputFor(x).metrics) == [Sample(HighCPU, ConditionServed(x)), Sample(HighMem, CONDITION_NORMAL)]
  {
  }

  lemma {:induction false} PlayCycle(refused: set<nat>, ops: seq<Op>, es: seq<Event>, off: bool, x: Served)
    returns (refused': set<nat>)
    requires Reached(refused, ops, HighCPU, es, off)
    ensures Reached(refused', ops + CycleOps(InputFor(x).metrics), HighCPU, es + OrderOf(off, x), x.byMemory)
  {
    var c := ConditionServed(x);
    var one := ops + [Sample(HighCPU, c)];
    CyclesOps(x);
    assert ops + CycleOps(InputFor(x).metrics) == one + [Sample(HighMem, CONDITION_NORMAL)];
    if x.byMemory {
      Refuse(refused, ops, HighCPU, es, off, HighCPU, c);
      var more := refused + {After(Refusing(refused), 1, 0, ops).redis.issued};
      Refuse(more, one, HighCPU, es + [ByMemory(c)], true, HighMem, CONDITION_NORMAL);
      refused' := more + {After(Refusing(more), 1, 0, one).redis.issued};
      assert es + [ByMemory(c)] + [] == es + OrderOf(off, x);
    } else {
      ServiceOrders.Answer(refused, ops, HighCPU, es, off, HighCPU, c);
      assert es + (if off then [Resynced] else []) + [ByRedis(c)] == es + OrderOf(off, x);
      ServiceOrders.Answer(refused, one, HighCPU, es + OrderOf(off, x), false, HighMem, CONDITION_NORMAL);
      refused' := refused;
      assert es + OrderOf(off, x) + [] + [] == es + OrderOf(off, x);
    }
  }

  /** Refused commands serve any cycles in any order by memory and by Redis. */
  lemma {:induction false} PlayCycles(xs: seq<Served>) returns (refused: set<nat>)
    ensures Reached(refused, OpsFor(xs), HighCPU, Order(xs), OffRedis(xs))
  {
    refused := {};
    if xs == [] {
      ReachedNone(HighCPU);
    } else {
      var front, x := xs[..|xs| - 1], xs[|xs| - 1];
      refused := PlayCycles(front);
      refused := PlayCycle(refused, OpsFor(front), Order(front), OffRedis(front), x);
    }
  }

  /** The sample of the other type that ends a cycle adds no event after this type's sample. */
  lemma {:induction false} BeforeOtherSample(env: Environment, one: seq<Op>, es: seq<Event>)
    requires var two := one + [Sample(HighMem, CONDITION_NORMAL)];
             TraceOf(env, 1, 0, two, HighCPU).events == es && PromptRun(env, 1, 0, two, HighCPU)
    requires EndsInSample(es)
    ensures TraceOf(env, 1, 0, one, HighCPU).events == es && PromptRun(env, 1, 0, one, HighCPU)
  {
    var op := Sample(HighMem, CONDITION_NORMAL);
    var two := one + [op];
    assert two[..|one|] == one && two[|one|] == op;
    var p, tr := After(env, 1, 0, one), TraceOf(env, 1, 0, one, HighCPU);
    StepEvents(env, 1, tr, HighCPU, p, op);
    assert es == tr.events + (if p.failed && !FailedAtService(env, 1, p, op) then [Resynced] else []);
  }

  lemma {:induction false} OrderEnds(xs: seq<Served>)
    requires xs != []
    ensures EndsInSample(Order(xs)) && Order(xs)[|Order(xs)| - 1].condition == ConditionServed(xs[|xs| - 1])
  {
  }

  /** The last CPU sample of such a run is counted as the run of what its server has seen. */
  lemma {:induction false} LastCount(refused: set<nat>, xs: seq<Served>)
    requires xs != [] && Reached(refused, OpsFor(xs), HighCPU, Order(xs), OffRedis(xs))
    ensures var ops, c := OpsFor(xs[..|xs| - 1]), ConditionServed(xs[|xs| - 1]);
            && Response(Refusing(refused), 1, 0, ops, Sample(HighCPU, c)).count == Ok(Run(Seen(Order(xs))))
            && SamplesOf(OpsFor(xs), HighCPU) == Samples(Order(xs))
  {
    var ops, x := OpsFor(xs[..|xs| - 1]), xs[|xs| - 1];
    var one := ops + [Sample(HighCPU, ConditionServed(x))];
    CyclesOps(x);
    assert OpsFor(xs) == one + [Sample(HighMem, CONDITION_NORMAL)];
    OrderEnds(xs);
    BeforeOtherSample(Refusing(refused), one, Order(xs));
    SplicedCount(Refusing(refused), ops, HighCPU, ConditionServed(x), Order(xs));
    TraceHasAllSamples(Refusing(refused), 1, 0, OpsFor(xs), HighCPU);
  }

  lemma {:induction false} LastUpdate(refused: set<nat>, xs: seq<Served>)
    requires xs != [] && Reached(refused, OpsFor(xs), HighCPU, Order(xs), OffRedis(xs))
    ensures var s, front, x := Start(refused), InputsFor(xs[..|xs| - 1]), xs[|xs| - 1];
            var u := Updated(s.out.redis, s.ttl, PipelineAfter(s, front).0, InputFor(x).metrics).1;
            && u.Ok? && u.value.cpuCount == Run(Seen(Order(xs))) && u.value.cpuCondition == ConditionServed(x)
            && HistoryAfter(s, InputsFor(xs), HighCPU) == Samples(Order(xs))
  {
    var s, front, x := Start(refused), InputsFor(xs[..|xs| - 1]), xs[|xs| - 1];
    LastCount(refused, xs);
    OpsAreFor(refused, xs);
    OpsAreFor(refused, xs[..|xs| - 1]);
    StoreFollows(s, front);
    CyclesOps(x);
    CycleIsTwoOps(s, OpsFor(xs[..|xs| - 1]), InputFor(x).metrics);
  }

  /** The same servers, with the samples the last one has not seen made normal and all others high. */
  function Repaint(xs: seq<Served>, redis: bool): (ys: seq<Served>)
    ensures |ys| == |xs| && forall i :: 0 <= i < |xs| ==> ys[i].byMemory == xs[i].byMemory
  {
    if xs == [] then [] else
    var front, x := xs[..|xs| - 1], xs[|xs| - 1];
    Repaint(front, redis && (x.byMemory || !OffRedis(front))) + [Repainted(x, redis)]
  }

  lemma {:induction false} PaintedGrows(es: seq<Event>, e: Event, redis: bool)
    ensures Painted(es + [e], redis)
         == match e
            case ByRedis(_) => Painted(es, redis) + [ByRedis(if redis then CONDITION_HIGH else CONDITION_NORMAL)]
            case ByMemory(_) => Painted(es, redis) + [ByMemory(CONDITION_HIGH)]
            case Resynced => Painted(es, false) + [Resynced]
  {
    assert (es + [e])[..|es|] == es;
  }

  function Repainted(x: Served, redis: bool): Served {
    Served(x.byMemory, x.byMemory || redis)
  }

  lemma {:induction false} PaintedResync(es: seq<Event>, c: AlertCondition, redis: bool)
    ensures Painted(es + [Resynced] + [ByRedis(c)], redis)
         == Painted(es, false) + [Resynced] + [ByRedis(if redis then CONDITION_HIGH else CONDITION_NORMAL)]
  {
    PaintedGrows(es, Resynced, redis);
    PaintedGrows(es + [Resynced], ByRedis(c), redis);
  }

  lemma {:induction false} PaintedCycle(es: seq<Event>, off: bool, x: Served, redis: bool)
    ensures Painted(es + OrderOf(off, x), redis)
         == Painted(es, redis && (x.byMemory || !off)) + OrderOf(off, Repainted(x, redis))
  {
    var c := ConditionServed(x);
    var painted := Painted(es, redis && (x.byMemory || !off));
    OrderAdds(es, off, x);
    OrderAdds(painted, off, Repainted(x, redis));
    if x.byMemory {
      PaintedGrows(es, ByMemory(c), redis);
    } else if off {
      PaintedResync(es, c, redis);
    } else {
      PaintedGrows(es, ByRedis(c), redis);
    }
  }

  lemma {:induction false} OrderAdds(es: seq<Event>, off: bool, x: Served)
    ensures var c := ConditionServed(x);
            es + OrderOf(off, x)
              == if x.byMemory then es + [ByMemory(c)]
                 else if off then es + [Resynced] + [ByRedis(c)] else es + [ByRedis(c)]
  {
  }

  lemma {:induction false} OrderGrows(xs: seq<Served>, x: Served)
    ensures Order(xs + [x]) == Order(xs) + OrderOf(OffRedis(xs), x)
  {
    assert (xs + [x])[..|xs|] == xs;
  }

  lemma {:induction false} RepaintIsPainted(xs: seq<Served>, redis: bool)
    ensures Order(Repaint(xs, redis)) == Painted(Order(xs), redis)
  {
    if xs != [] {
      var front, x := xs[..|xs| - 1], xs[|xs| - 1];
      var ys := Repaint(front, redis && (x.byMemory || !OffRedis(front)));
      RepaintIsPainted(front, redis && (x.byMemory || !OffRedis(front)));
      OrderGrows(ys, Repainted(x, redis));
      PaintedCycle(Order(front), OffRedis(front), x, redis);
    }
  }

  /**
   What a run of cycles ends in: the last one asks for a CPU alert, and one is open, without a full run of high
   samples.
   */
  ghost predicate Premature(refused: set<nat>, xs: seq<Served>)
    requires xs != []
  {
    var s, inputs := Start(refused), InputsFor(xs);
    var u := Updated(s.out.redis, s.ttl, PipelineAfter(s, inputs[..|xs| - 1]).0, inputs[|xs| - 1].metrics).1;
    && u.Ok? && RaisesAlert(s.lim, u.value, HighCPU) && OpenAfter(s, inputs, HighCPU)
    && !EndsWith(HistoryAfter(s, inputs, HighCPU), s.lim.trigger, CONDITION_HIGH)
  }

  lemma {:induction false} RaisedIsOpen(refused: set<nat>, xs: seq<Served>)
    requires xs != [] && Reached(refused, OpsFor(xs), HighCPU, Order(xs), OffRedis(xs)) && xs[|xs| - 1].high
    requires Run(Samples(Order(xs))) < LIMITS.trigger <= Run(Seen(Order(xs)))
    ensures Premature(refused, xs)
  {
    var s, inputs := Start(refused), InputsFor(xs);
    LastUpdate(refused, xs);
    FrontInputs(xs);
    LedgerStaysValid(s, inputs[..|xs| - 1]);
    CompletedCycle(s, inputs, HighCPU);
    FallsShort(xs);
  }

  lemma {:induction false} FrontInputs(xs: seq<Served>)
    requires xs != []
    ensures InputsFor(xs)[..|xs| - 1] == InputsFor(xs[..|xs| - 1]) && InputsFor(xs)[|xs| - 1] == InputFor(xs[|xs| - 1])
  {
  }

  lemma {:induction false} FallsShort(xs: seq<Served>)
    requires xs != [] && xs[|xs| - 1].high && Run(Samples(Order(xs))) < LIMITS.trigger
    ensures !EndsWith(Samples(Order(xs)), LIMITS.trigger, CONDITION_HIGH)
  {
    OrderEnds(xs);
    LastSampleSeen(Order(xs));
    TrailingReaches(Samples(Order(xs)), LIMITS.trigger, CONDITION_HIGH);
  }

  /**
   Cycles whose CPU samples are served in an order that is not safe for the trigger count, with some samples, ask for
   an alert the samples do not call for, and leave it open.
   */
  lemma {:induction false} UnsafeOrderRaises(xs: seq<Served>) returns (refused: set<nat>, ys: seq<Served>)
    requires xs != [] && !Safe(OrderOfCycles(xs), LIMITS.trigger)
    ensures |ys| == |xs| && (forall i :: 0 <= i < |xs| ==> ys[i].byMemory == xs[i].byMemory)
    ensures Premature(refused, ys)
  {
    var es := Order(xs);
    var redis := es[|es| - 1].ByRedis?;
    var lawful := PlayCycles(xs);
    EventsLawful(Refusing(lawful), 1, 0, OpsFor(xs), HighCPU);
    UnsafePainted(es, LIMITS.trigger);
    RepaintIsPainted(xs, redis);
    ys := Repaint(xs, redis);
    OrderEnds(ys);
    assert ys[|ys| - 1].high by {
      assert |CONDITION_HIGH| != |CONDITION_NORMAL|;
    }
    refused := PlayCycles(ys);
    RaisedIsOpen(refused, ys);
  }

  function OrderOfCycles(xs: seq<Served>): (es: seq<Event>)
    requires xs != []
    ensures EndsInSample(es)
  {
    OrderEnds(xs);
    Order(xs)
  }

  const HIGH_MEMORY := Served(true, true)
  const NORMAL_REDIS := Served(false, false)

  // Two high samples in an outage, a normal one after the resync, and a high one in a second outage.
  const SECOND_OUTAGE: seq<Served> := [HIGH_MEMORY, HIGH_MEMORY, NORMAL_REDIS, HIGH_MEMORY]

  lemma {:induction false} OrderOfTwo(xs: seq<Served>, a: Served, b: Served)
    ensures Order(xs + [a] + [b]) == Order(xs) + OrderOf(OffRedis(xs), a) + OrderOf(a.byMemory, b)
    ensures OffRedis(xs + [a] + [b]) == b.byMemory
  {
    OrderGrows(xs, a);
    OrderGrows(xs + [a], b);
  }

  lemma {:induction false} OrderOfFour(a: Served, b: Served, c: Served, d: Served)
    ensures Order([] + [a] + [b] + [c] + [d])
         == Order([]) + OrderOf(false, a) + OrderOf(a.byMemory, b) + OrderOf(b.byMemory, c) + OrderOf(c.byMemory, d)
  {
    OrderOfTwo([], a, b);
    OrderOfTwo([] + [a] + [b], c, d);
  }

  lemma SecondOutageOrder()
    ensures Order(SECOND_OUTAGE) == [] + [ByMemory(CONDITION_HIGH)] + [ByMemory(CONDITION_HIGH)] + [Resynced]
                                    + [ByRedis(CONDITION_NORMAL)] + [ByMemory(CONDITION_HIGH)]
  {
    OrderOfFour(HIGH_MEMORY, HIGH_MEMORY, NORMAL_REDIS, HIGH_MEMORY);
    assert SECOND_OUTAGE == [] + [HIGH_MEMORY] + [HIGH_MEMORY] + [NORMAL_REDIS] + [HIGH_MEMORY];
  }

  predicate Histories(es: seq<Event>, all: History, memory: History, redis: History) {
    Samples(es) == all && ServedByMemory(es) == memory && ServedByRedis(es) == redis
  }

  lemma {:induction false} HistoriesGrow(es: seq<Event>, all: History, memory: History, redis: History,
                                         c: AlertCondition)
    requires Histories(es, all, memory, redis)
    ensures Histories(es + [ByMemory(c)], all + [c], memory + [c], redis)
    ensures Histories(es + [ByRedis(c)], all + [c], memory, redis + [c])
    ensures Histories(es + [Resynced], all, memory, [])
  {
    EventsGrow(es, ByMemory(c));
    EventsGrow(es, ByRedis(c));
    EventsGrow(es, Resynced);
  }

  /** What the server has seen when two samples by memory, a resync and one by Redis come before one by memory. */
  lemma {:induction false} SeenInSecondOutage(a: AlertCondition, b: AlertCondition, c: AlertCondition,
                                              d: AlertCondition)
    ensures var es := [] + [ByMemory(a)] + [ByMemory(b)] + [Resynced] + [ByRedis(c)] + [ByMemory(d)];
            Samples(es) == [] + [a] + [b] + [c] + [d] && Seen(es) == [] + [a] + [b] + [d]
  {
    var one := [] + [ByMemory(a)];
    var two := one + [ByMemory(b)];
    var three := two + [Resynced];
    HistoriesGrow([], [], [], [], a);
    HistoriesGrow(one, [] + [a], [] + [a], [], b);
    HistoriesGrow(two, [] + [a] + [b], [] + [a] + [b], [], c);
    HistoriesGrow(three, [] + [a] + [b], [] + [a] + [b], [], c);
    HistoriesGrow(three + [ByRedis(c)], [] + [a] + [b] + [c], [] + [a] + [b], [] + [c], d);
  }

  lemma SecondOutageRuns()
    ensures var es := Order(SECOND_OUTAGE);
            && Samples(es) == [CONDITION_HIGH, CONDITION_HIGH, CONDITION_NORMAL, CONDITION_HIGH]
            && Seen(es) == [CONDITION_HIGH, CONDITION_HIGH, CONDITION_HIGH]
  {
    var high, normal := CONDITION_HIGH, CONDITION_NORMAL;
    SecondOutageOrder();
    SeenInSecondOutage(high, high, normal, high);
    assert [] + [high] + [high] + [normal] + [high] == [high, high, normal, high];
    assert [] + [high] + [high] + [high] == [high, high, high];
  }

  /** Through two outages the pipeline opens a CPU alert on a fourth sample, the third having been normal. */
  lemma AlertWithoutRun() returns (refused: set<nat>)
    ensures var s, inputs := Start(refused), InputsFor(SECOND_OUTAGE);
            && HistoryAfter(s, inputs, HighCPU) == [CONDITION_HIGH, CONDITION_HIGH, CONDITION_NORMAL, CONDITION_HIGH]
            && !OpenAfter(s, inputs[..3], HighCPU) && OpenAfter(s, inputs, HighCPU)
  {
    refused := PlayCycles(SECOND_OUTAGE);
    SecondOutageRuns();
    SecondOutageCounts();
    RaisedIsOpen(refused, SECOND_OUTAGE);
    LastUpdate(refused, SECOND_OUTAGE);
    ClosedBefore(refused);
  }

  lemma SecondOutageCounts()
    ensures Run([CONDITION_HIGH, CONDITION_HIGH, CONDITION_HIGH]) == 3
    ensures Run([CONDITION_HIGH, CONDITION_HIGH, CONDITION_NORMAL, CONDITION_HIGH]) == 1
  {
    assert |CONDITION_HIGH| != |CONDITION_NORMAL|;
    TrailingMeaning([CONDITION_HIGH, CONDITION_HIGH, CONDITION_HIGH], CONDITION_HIGH, 3);
    TrailingMeaning([CONDITION_HIGH, CONDITION_HIGH, CONDITION_NORMAL, CONDITION_HIGH], CONDITION_HIGH, 1);
  }

  lemma ClosedBefore(refused: set<nat>)
    ensures !OpenAfter(Start(refused), InputsFor(SECOND_OUTAGE)[..3], HighCPU)
  {
    var s, three := Start(refused), InputsFor(SECOND_OUTAGE)[..3];
    LedgerStaysValid(s, three[..2]);
    SamplesAtMostInputs(s, three[..2], HighCPU);
    NoAlertBeforeTrigger(s, three[..2], HighCPU);
    LastCycle(s, three, HighCPU);
    assert three[2] == InputFor(NORMAL_REDIS);
    assert |CONDITION_HIGH| != |CONDITION_NORMAL|;
  }
}
