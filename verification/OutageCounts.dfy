/** When the counts of the fallback store can be trusted against all the samples, whoever served them. */
module OutageCounts {
  import opened Model
  import opened Redis
  import opened RedisCounts
  import opened RunLength
  import opened Fallback
  import opened FallbackRuns

  /** How one type was served: by Redis, then by memory, then by Redis again; any further change breaks the order. */
  datatype Phase = Before | During | Later | Broken

  function Next(ph: Phase, e: Event): Phase {
    match ph
    case Before => if e.ByMemory? then During else Before
    case During => if e.ByRedis? then Later else During
    case Later => if e.ByRedis? then Later else Broken
    case Broken => Broken
  }

  function PhaseOf(es: seq<Event>): Phase {
    if es == [] then Before else Next(PhaseOf(es[..|es| - 1]), es[|es| - 1])
  }

  /** Memory has served since the last completed resync. */
  predicate Pending(es: seq<Event>) {
    es != [] &&
      var e := es[|es| - 1];
      e.ByMemory? || (e.ByRedis? && Pending(es[..|es| - 1]))
  }

  /** Redis serves nothing between a sample of memory's and the next completed resync. */
  predicate Lawful(es: seq<Event>) {
    es != [] ==> Lawful(es[..|es| - 1]) && (es[|es| - 1].ByRedis? ==> !Pending(es[..|es| - 1]))
  }

  lemma PhaseGrows(es: seq<Event>, e: Event)
    ensures PhaseOf(es + [e]) == Next(PhaseOf(es), e)
    ensures Pending(es + [e]) <==> e.ByMemory? || (e.ByRedis? && Pending(es))
    ensures Lawful(es + [e]) <==> Lawful(es) && (e.ByRedis? ==> !Pending(es))
  {
    assert (es + [e])[..|es|] == es;
  }

  /** What an unbroken order says about the backends: memory has seen nothing yet, or Redis nothing since. */
  predicate Settled(es: seq<Event>) {
    && (PhaseOf(es) == Before ==> ServedByMemory(es) == [] && !Pending(es))
    && (PhaseOf(es) == During ==> (es != [] && es[|es| - 1].ByMemory?) || ServedByRedis(es) == [])
    && (PhaseOf(es) == Later ==> !Pending(es))
  }

  /** In an unbroken order the next event leaves what is seen alone, extends it, or starts it afresh. */
  lemma SettledGrows(es: seq<Event>, e: Event)
    requires Lawful(es + [e]) && PhaseOf(es + [e]) != Broken && Settled(es)
    ensures Lawful(es) && PhaseOf(es) != Broken && Settled(es + [e])
    ensures !e.Resynced? && (e.ByRedis? || PhaseOf(es) != Before) ==> Seen(es + [e]) == Seen(es) + [e.condition]
    ensures e.ByMemory? && PhaseOf(es) == Before ==> Seen(es + [e]) == [e.condition]
    ensures e.Resynced? ==> Seen(es + [e]) == if PhaseOf(es) == Before then [] else Seen(es)
  {
    PhaseGrows(es, e);
    EventsGrow(es, e);
    assert ServedByMemory(es) + [] == ServedByMemory(es);
  }

  lemma SuffixGrows(es: seq<Event>, e: Event, x: History) returns (y: History)
    requires Lawful(es + [e]) && PhaseOf(es + [e]) != Broken && Settled(es) && Samples(es) == x + Seen(es)
    ensures Samples(es + [e]) == y + Seen(es + [e])
  {
    SettledGrows(es, e);
    EventsGrow(es, e);
    y := if !e.ByRedis? && PhaseOf(es) == Before then Samples(es) else x;
  }

  /** In an unbroken order the history a backend has seen is the end of the full history. */
  lemma {:induction false} SeenIsSuffix(es: seq<Event>) returns (x: History)
    requires Lawful(es) && PhaseOf(es) != Broken
    ensures Samples(es) == x + Seen(es) && Settled(es)
  {
    if es == [] {
      x := [];
    } else {
      var front, e := es[..|es| - 1], es[|es| - 1];
      assert es == front + [e];
      PhaseGrows(front, e);
      x := SeenIsSuffix(front);
      SettledGrows(front, e);
      x := SuffixGrows(front, e, x);
    }
  }

  predicate SameService(es: seq<Event>, fs: seq<Event>) {
    |es| == |fs| && forall i :: 0 <= i < |es| ==>
      && es[i].ByRedis? == fs[i].ByRedis? && es[i].ByMemory? == fs[i].ByMemory? && es[i].Resynced? == fs[i].Resynced?
  }

  lemma {:induction false} SameServiceSamePhase(es: seq<Event>, fs: seq<Event>)
    requires SameService(es, fs)
    ensures PhaseOf(es) == PhaseOf(fs) && (Lawful(es) <==> Lawful(fs)) && (Pending(es) <==> Pending(fs))
    ensures |ServedByMemory(es)| == |ServedByMemory(fs)| && |ServedByRedis(es)| == |ServedByRedis(fs)|
  {
    if es != [] {
      SameServiceSamePhase(es[..|es| - 1], fs[..|fs| - 1]);
    }
  }

  /** The same service with the samples the last server has not seen made normal, and all others high. */
  function Painted(es: seq<Event>, keep: bool): seq<Event> {
    if es == [] then [] else
    var front := es[..|es| - 1];
    match es[|es| - 1]
    case ByRedis(_) => Painted(front, keep) + [ByRedis(if keep then CONDITION_HIGH else CONDITION_NORMAL)]
    case ByMemory(_) => Painted(front, keep) + [ByMemory(CONDITION_HIGH)]
    case Resynced => Painted(front, false) + [Resynced]
  }

  predicate AllHigh(h: History) {
    forall i :: 0 <= i < |h| ==> h[i] == CONDITION_HIGH
  }

  lemma ServiceGrows(es: seq<Event>, fs: seq<Event>, e: Event, f: Event)
    requires SameService(es, fs) && SameService([e], [f])
    ensures SameService(es + [e], fs + [f])
  {
    assert [e][0] == e && [f][0] == f;
  }

  lemma AllHighGrows(h: History)
    requires AllHigh(h)
    ensures AllHigh(h + [CONDITION_HIGH])
  {
  }

  lemma HighGrows(fs: seq<Event>, f: Event)
    requires f.ByMemory? ==> f.condition == CONDITION_HIGH
    ensures AllHigh(ServedByMemory(fs)) ==> AllHigh(ServedByMemory(fs + [f]))
    ensures f.Resynced? || (AllHigh(ServedByRedis(fs)) && (f.ByRedis? ==> f.condition == CONDITION_HIGH)) ==>
              AllHigh(ServedByRedis(fs + [f]))
  {
    EventsGrow(fs, f);
    if AllHigh(ServedByMemory(fs)) {
      AllHighGrows(ServedByMemory(fs));
    }
    if AllHigh(ServedByRedis(fs)) {
      AllHighGrows(ServedByRedis(fs));
    }
  }

  lemma {:induction false} PaintedKeepsService(es: seq<Event>, keep: bool)
    requires Lawful(es) && (keep ==> !Pending(es))
    ensures var fs := Painted(es, keep);
            && SameService(es, fs)
            && AllHigh(ServedByMemory(fs)) && (keep ==> AllHigh(ServedByRedis(fs)))
  {
    if es != [] {
      var front, e := es[..|es| - 1], es[|es| - 1];
      var kept := keep && !e.Resynced?;
      PaintedKeepsService(front, kept);
      var f := match e case ByRedis(_) => ByRedis(if keep then CONDITION_HIGH else CONDITION_NORMAL)
                       case ByMemory(_) => ByMemory(CONDITION_HIGH)
                       case Resynced => Resynced;
      assert Painted(es, keep) == Painted(front, kept) + [f];
      assert es == front + [e];
      ServiceGrows(front, Painted(front, kept), e, f);
      HighGrows(Painted(front, kept), f);
    }
  }

  lemma {:induction false} OutageLeavesMemory(es: seq<Event>)
    requires PhaseOf(es) != Before
    ensures ServedByMemory(es) != []
  {
    if PhaseOf(es[..|es| - 1]) != Before {
      OutageLeavesMemory(es[..|es| - 1]);
    }
  }

  /** Fewer samples at the end are high than a broken order's last server has seen. */
  lemma {:induction false} PaintedGap(es: seq<Event>, keep: bool)
    requires Lawful(es) && (keep ==> !Pending(es))
    ensures var high := Trailing(Samples(Painted(es, keep)), CONDITION_HIGH);
            var seen := |ServedByMemory(es)| + if keep then |ServedByRedis(es)| else 0;
            high <= seen && (PhaseOf(es) == Broken || (PhaseOf(es) == Later && !keep) ==> high < seen)
  {
    if es != [] {
      var front, e := es[..|es| - 1], es[|es| - 1];
      var kept := keep && !e.Resynced?;
      PaintedGap(front, kept);
      var fs := Painted(front, kept);
      var high := Trailing(Samples(fs), CONDITION_HIGH);
      assert PhaseOf(es) == Next(PhaseOf(front), e);
      match e
      case ByRedis(_) =>
        PaintedSample(fs, ByRedis(if keep then CONDITION_HIGH else CONDITION_NORMAL));
        if PhaseOf(es) != Before {
          OutageLeavesMemory(es);
        }
      case ByMemory(_) =>
        assert !keep;
        PaintedSample(fs, ByMemory(CONDITION_HIGH));
      case Resynced =>
        EventsGrow(fs, Resynced);
    }
  }

  lemma PaintedSample(fs: seq<Event>, f: Event)
    requires !f.Resynced?
    ensures f.condition == CONDITION_HIGH ==>
              Trailing(Samples(fs + [f]), CONDITION_HIGH) == Trailing(Samples(fs), CONDITION_HIGH) + 1
    ensures f.condition == CONDITION_NORMAL ==> Trailing(Samples(fs + [f]), CONDITION_HIGH) == 0
  {
    EventsGrow(fs, f);
    TrailingExtends(Samples(fs), f.condition);
    assert |CONDITION_HIGH| != |CONDITION_NORMAL|;
  }

  lemma AllHighRun(h: History)
    requires h != [] && AllHigh(h)
    ensures Run(h) == |h|
  {
    TrailingMeaning(h, CONDITION_HIGH, |h|);
  }

  /**
   For a given order of service, counts exceed the true run for no samples at all exactly when the order is
   Redis, then memory, then Redis, with no resync after Redis has served again.
   */
  lemma NeverAheadIff(es: seq<Event>)
    requires Lawful(es) && es != [] && !es[|es| - 1].Resynced?
    ensures PhaseOf(es) != Broken <==>
            forall fs :: SameService(es, fs) ==> Run(Seen(fs)) <= Run(Samples(fs))
  {
    if PhaseOf(es) != Broken {
      forall fs | SameService(es, fs)
        ensures Run(Seen(fs)) <= Run(Samples(fs))
      {
        SameServiceSamePhase(es, fs);
        SeenAtMostTrue(fs);
      }
    } else {
      PaintedKeepsService(es, es[|es| - 1].ByRedis?);
      PaintedCountsAhead(es);
    }
  }

  /** In a broken order the painted samples show more in a row to the last server than there are. */
  lemma PaintedCountsAhead(es: seq<Event>)
    requires Lawful(es) && PhaseOf(es) == Broken && es != [] && !es[|es| - 1].Resynced?
    ensures var fs := Painted(es, es[|es| - 1].ByRedis?);
            && |fs| == |es| && !fs[|fs| - 1].Resynced? && fs[|fs| - 1].condition == CONDITION_HIGH
            && Run(Seen(fs)) > Run(Samples(fs))
  {
    var keep := es[|es| - 1].ByRedis?;
    var fs := Painted(es, keep);
    PaintedKeepsService(es, keep);
    PaintedGap(es, keep);
    SameServiceSamePhase(es, fs);
    AllHighRun(Seen(fs));
    LastSampleSeen(fs);
  }

  lemma LastSampleSeen(es: seq<Event>)
    requires es != [] && !es[|es| - 1].Resynced?
    ensures Seen(es) != [] && Latest(Seen(es)) == es[|es| - 1].condition == Latest(Samples(es))
  {
  }

  lemma SeenAtMostTrue(es: seq<Event>)
    requires Lawful(es) && PhaseOf(es) != Broken && es != [] && !es[|es| - 1].Resynced?
    ensures Run(Seen(es)) <= Run(Samples(es))
  {
    var x := SeenIsSuffix(es);
    LastSampleSeen(es);
    TrailingOfSuffix(x, Seen(es), Latest(Seen(es)));
  }

  /** Whether `redisFailed` rises during an operation: it is clear after the recovery and set at the end. */
  predicate Rises(env: Environment, ttl: nat, p: Pair, op: Op) {
    !op.Asking? && !Recover(env, ttl, p).failed && Do(env, ttl, p, op).0.failed
  }

  function Outages(env: Environment, ttl: nat, start: int, ops: seq<Op>): nat {
    if ops == [] then 0 else
    var front := ops[..|ops| - 1];
    Outages(env, ttl, start, front)
      + if Rises(env, ttl, After(env, ttl, start, front), ops[|ops| - 1]) then 1 else 0
  }

  /** The events of one operation: a completed resync clears the flag, and the flag tells who served the sample. */
  function Grown(es: seq<Event>, failed: bool, recovered: bool, op: Op, t: AlertType, failed': bool): seq<Event> {
    es + (if failed && recovered then [Resynced] else [])
       + if op.kind == t && op.Sample?
         then [if failed' then ByMemory(op.condition) else ByRedis(op.condition)] else []
  }

  /** The flag once an operation has tried to recover. */
  function FailedAtService(env: Environment, ttl: nat, p: Pair, op: Op): bool {
    if op.Asking? then p.failed else Recover(env, ttl, p).failed
  }

  lemma StepEvents(env: Environment, ttl: nat, tr: Trace, t: AlertType, p: Pair, op: Op)
    requires Supported(t)
    ensures var recovered := !FailedAtService(env, ttl, p, op);
            var p' := Do(env, ttl, p, op).0;
            && Note(env, ttl, tr, t, p, op).events == Grown(tr.events, p.failed, recovered, op, t, p'.failed)
            && (!p.failed ==> recovered) && (!recovered ==> p'.failed)
            && (Rises(env, ttl, p, op) <==> recovered && p'.failed)
  {
    match op
    case Sample(k, c) =>
    case Marking(k, a) => assert MarkActive(env, ttl, p, k, a) == MarkOn(env, Recover(env, ttl, p), k, a);
    case Asking(_) =>
  }

  predicate WithinOutages(es: seq<Event>, failed: bool, outages: nat) {
    && Lawful(es) && (Pending(es) ==> failed)
    && (outages == 0 ==> !failed && PhaseOf(es) == Before && forall i :: 0 <= i < |es| ==> es[i].ByRedis?)
    && (outages == 1 ==> PhaseOf(es) != Broken && (failed ==> PhaseOf(es) != Later))
  }

  lemma ResyncKeepsLawful(es: seq<Event>, n: nat)
    requires WithinOutages(es, true, n)
    ensures WithinOutages(es + [Resynced], false, n)
  {
    PhaseGrows(es, Resynced);
  }

  lemma SampleKeepsLawful(es: seq<Event>, failed: bool, c: AlertCondition, failed': bool, n: nat)
    requires WithinOutages(es, failed, n) && (failed ==> failed')
    ensures var outages := n + if !failed && failed' then 1 else 0;
            WithinOutages(es + [if failed' then ByMemory(c) else ByRedis(c)], failed', outages)
  {
    PhaseGrows(es, if failed' then ByMemory(c) else ByRedis(c));
  }

  lemma GrownLawful(es: seq<Event>, failed: bool, recovered: bool, op: Op, t: AlertType, failed': bool, n: nat)
    requires WithinOutages(es, failed, n) && (!failed ==> recovered) && (!recovered ==> failed')
    ensures var outages := n + if recovered && failed' then 1 else 0;
            WithinOutages(Grown(es, failed, recovered, op, t, failed'), failed', outages)
  {
    var fs := es + if failed && recovered then [Resynced] else [];
    assert es + [] == es && fs + [] == fs;
    if failed && recovered {
      ResyncKeepsLawful(es, n);
    }
    if op.kind == t && op.Sample? {
      SampleKeepsLawful(fs, !recovered, op.condition, failed', n);
    }
  }

  lemma {:induction false} EventsLawful(env: Environment, ttl: nat, start: int, ops: seq<Op>, t: AlertType)
    requires Supported(t)
    ensures WithinOutages(TraceOf(env, ttl, start, ops, t).events, After(env, ttl, start, ops).failed,
                          Outages(env, ttl, start, ops))
  {
    if ops != [] {
      var front, op := ops[..|ops| - 1], ops[|ops| - 1];
      EventsLawful(env, ttl, start, front, t);
      var p, tr := After(env, ttl, start, front), TraceOf(env, ttl, start, front, t);
      StepEvents(env, ttl, tr, t, p, op);
      GrownLawful(tr.events, p.failed, !FailedAtService(env, ttl, p, op), op, t,
                  After(env, ttl, start, ops).failed, Outages(env, ttl, start, front));
    }
  }

  /** The samples of one type, in order. */
  function SamplesOf(ops: seq<Op>, t: AlertType): History {
    if ops == [] then [] else
    var rest, op := SamplesOf(ops[..|ops| - 1], t), ops[|ops| - 1];
    if op.Sample? && op.kind == t then rest + [op.condition] else rest
  }

  lemma GrownSamples(es: seq<Event>, failed: bool, recovered: bool, op: Op, t: AlertType, failed': bool)
    ensures Samples(Grown(es, failed, recovered, op, t, failed'))
         == Samples(es) + if op.kind == t && op.Sample? then [op.condition] else []
  {
    var fs := es + if failed && recovered then [Resynced] else [];
    assert es + [] == es && fs + [] == fs && Samples(es) + [] == Samples(es);
    EventsGrow(es, Resynced);
    if op.kind == t && op.Sample? {
      EventsGrow(fs, if failed' then ByMemory(op.condition) else ByRedis(op.condition));
    }
  }

  lemma {:induction false} TraceHasAllSamples(env: Environment, ttl: nat, start: int, ops: seq<Op>, t: AlertType)
    requires Supported(t)
    ensures Samples(TraceOf(env, ttl, start, ops, t).events) == SamplesOf(ops, t)
  {
    if ops != [] {
      var front, op := ops[..|ops| - 1], ops[|ops| - 1];
      var p, tr := After(env, ttl, start, front), TraceOf(env, ttl, start, front, t);
      TraceHasAllSamples(env, ttl, start, front, t);
      StepEvents(env, ttl, tr, t, p, op);
      GrownSamples(tr.events, p.failed, !FailedAtService(env, ttl, p, op), op, t, Do(env, ttl, p, op).0.failed);
    }
  }

  /** In a run a type was served by Redis, then by memory, then by Redis again, and no resync came after that. */
  predicate Unbroken(env: Environment, ttl: nat, start: int, ops: seq<Op>, t: AlertType) {
    PhaseOf(TraceOf(env, ttl, start, ops, t).events) != Broken
  }

  lemma GrownStaysBroken(es: seq<Event>, failed: bool, recovered: bool, op: Op, t: AlertType, failed': bool)
    requires PhaseOf(es) == Broken
    ensures PhaseOf(Grown(es, failed, recovered, op, t, failed')) == Broken
  {
    var fs := es + if failed && recovered then [Resynced] else [];
    assert es + [] == es && fs + [] == fs;
    PhaseGrows(es, Resynced);
    if op.kind == t && op.Sample? {
      PhaseGrows(fs, if failed' then ByMemory(op.condition) else ByRedis(op.condition));
    }
  }

  /** What was unbroken after an operation was so before it. */
  lemma UnbrokenBefore(env: Environment, ttl: nat, start: int, ops: seq<Op>, op: Op, t: AlertType)
    requires Supported(t) && Unbroken(env, ttl, start, ops + [op], t)
    ensures Unbroken(env, ttl, start, ops, t)
  {
    assert (ops + [op])[..|ops|] == ops;
    var p, tr := After(env, ttl, start, ops), TraceOf(env, ttl, start, ops, t);
    StepEvents(env, ttl, tr, t, p, op);
    if PhaseOf(tr.events) == Broken {
      GrownStaysBroken(tr.events, p.failed, !FailedAtService(env, ttl, p, op), op, t, Do(env, ttl, p, op).0.failed);
    }
  }

  /** A run through at most one outage is unbroken for both types. */
  lemma OneOutageIsUnbroken(env: Environment, ttl: nat, start: int, ops: seq<Op>, t: AlertType)
    requires Supported(t) && Outages(env, ttl, start, ops) <= 1
    ensures Unbroken(env, ttl, start, ops, t)
  {
    EventsLawful(env, ttl, start, ops, t);
  }

  /**
   In an unbroken run, with any number of failed resyncs and any expiry, a count never exceeds the run of all the
   samples; so a count of n means that the last n samples were alike.
   */
  lemma NoPrematureCount(env: Environment, ttl: nat, start: int, ops: seq<Op>, t: AlertType, c: AlertCondition)
    requires Supported(t) && c != "" && Unbroken(env, ttl, start, ops + [Sample(t, c)], t)
    ensures var r := Response(env, ttl, start, ops, Sample(t, c));
            var all := SamplesOf(ops, t) + [c];
            r.count.Ok? && 1 <= r.count.value <= Run(all) && EndsWith(all, r.count.value, c)
  {
    var op := Sample(t, c);
    var all := ops + [op];
    assert all[..|ops|] == ops;
    CountIsSplicedRun(env, ttl, start, ops, t, c);
    EventsLawful(env, ttl, start, all, t);
    TraceHasAllSamples(env, ttl, start, all, t);
    var es := TraceOf(env, ttl, start, all, t).events;
    SampleEnds(env, ttl, start, ops, t, c);
    SeenAtMostTrue(es);
    TrailingReaches(Samples(es), Response(env, ttl, start, ops, op).count.value, c);
  }

  lemma {:induction false} SeenAtMostAll(es: seq<Event>)
    ensures |ServedByMemory(es)| + |ServedByRedis(es)| <= |Samples(es)|
  {
    if es != [] {
      SeenAtMostAll(es[..|es| - 1]);
    }
  }

  /** Whatever fails and expires, a count is at most the number of samples. */
  lemma CountAtMostSamples(env: Environment, ttl: nat, start: int, ops: seq<Op>, t: AlertType, c: AlertCondition)
    requires Supported(t) && c != ""
    ensures var r := Response(env, ttl, start, ops, Sample(t, c));
            r.count.Ok? && r.count.value <= |SamplesOf(ops, t)| + 1
  {
    var all := ops + [Sample(t, c)];
    assert all[..|ops|] == ops;
    var es := TraceOf(env, ttl, start, all, t).events;
    CountIsSplicedRun(env, ttl, start, ops, t, c);
    TraceHasAllSamples(env, ttl, start, all, t);
    SeenAtMostAll(es);
    TrailingAtMost(Seen(es), Latest(Seen(es)));
  }

  lemma SampleEnds(env: Environment, ttl: nat, start: int, ops: seq<Op>, t: AlertType, c: AlertCondition)
    requires Supported(t)
    ensures var es := TraceOf(env, ttl, start, ops + [Sample(t, c)], t).events;
            es != [] && !es[|es| - 1].Resynced? && es[|es| - 1].condition == c
  {
    assert (ops + [Sample(t, c)])[..|ops|] == ops;
    StepEvents(env, ttl, TraceOf(env, ttl, start, ops, t), t, After(env, ttl, start, ops), Sample(t, c));
  }

  lemma {:induction false} AllByRedisSeen(es: seq<Event>)
    requires forall i :: 0 <= i < |es| ==> es[i].ByRedis?
    ensures Seen(es) == Samples(es) == ServedByRedis(es) && ServedByMemory(es) == []
  {
    if es != [] {
      AllByRedisSeen(es[..|es| - 1]);
    }
  }

  /** Before any failure, and with no key expiring, a count is the run of all the samples. */
  lemma CountBeforeFailure(env: Environment, ttl: nat, start: int, ops: seq<Op>, t: AlertType, c: AlertCondition)
    requires Supported(t) && Outages(env, ttl, start, ops + [Sample(t, c)]) == 0
    requires PromptRun(env, ttl, start, ops + [Sample(t, c)], t)
    ensures Response(env, ttl, start, ops, Sample(t, c)).count == Ok(Run(SamplesOf(ops, t) + [c]))
  {
    var all := ops + [Sample(t, c)];
    assert all[..|ops|] == ops;
    CountIsSplicedRun(env, ttl, start, ops, t, c);
    EventsLawful(env, ttl, start, all, t);
    TraceHasAllSamples(env, ttl, start, all, t);
    AllByRedisSeen(TraceOf(env, ttl, start, all, t).events);
  }

  /** With no command failing, a run on the two supported types has no outage. */
  lemma {:induction false} AnsweredHasNoOutage(env: Environment, ttl: nat, start: int, ops: seq<Op>)
    requires Answered(env) && forall i :: 0 <= i < |ops| ==> Supported(ops[i].kind)
    ensures Outages(env, ttl, start, ops) == 0 && !After(env, ttl, start, ops).failed
  {
    if ops != [] {
      var front, op := ops[..|ops| - 1], ops[|ops| - 1];
      AnsweredHasNoOutage(env, ttl, start, front);
      RunKeeps(env, ttl, start, front, op.kind);
      if op.Sample? {
        AnswersWhenSane(env, ttl, After(env, ttl, start, front).redis, op.kind, op.condition);
      }
    }
  }
}
