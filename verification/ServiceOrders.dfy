/** Which orders of service the fallback store can go through, and in which of them its counts never run ahead. */
module ServiceOrders {
  import opened Model
  import opened Redis
  import opened RedisStore
  import opened RedisCounts
  import opened InMemory
  import opened RunLength
  import opened Fallback
  import opened Schedules
  import opened FallbackRuns
  import opened OutageCounts

  lemma ResyncAgrees(e: Environment, f: Environment, ttl: nat, p: Pair)
    requires Agree(e, f, p.redis.issued, Resync(e, ttl, p).0.issued)
    ensures Resync(f, ttl, p) == Resync(e, ttl, p) && p.redis.issued < Resync(e, ttl, p).0.issued
  {
    var n := p.redis.issued;
    assert e(n) == f(n);
    if e(n).fate.Done? {
      assert Resync(e, ttl, p).0.issued == n + 2;
      assert e(n + 1) == f(n + 1);
    }
  }

  lemma RecoverAgrees(e: Environment, f: Environment, ttl: nat, p: Pair)
    requires Agree(e, f, p.redis.issued, Recover(e, ttl, p).redis.issued)
    ensures Recover(f, ttl, p) == Recover(e, ttl, p) && p.redis.issued <= Recover(e, ttl, p).redis.issued
  {
    if p.failed {
      ResyncAgrees(e, f, ttl, p);
    }
  }

  lemma CountAgrees(e: Environment, f: Environment, ttl: nat, q: Pair, t: AlertType, c: AlertCondition)
    requires Agree(e, f, q.redis.issued, CountOn(e, ttl, q, t, c).0.redis.issued)
    ensures CountOn(f, ttl, q, t, c) == CountOn(e, ttl, q, t, c)
    ensures q.redis.issued <= CountOn(e, ttl, q, t, c).0.redis.issued
  {
    if !q.failed {
      assert CountOn(e, ttl, q, t, c).0.redis == Increment(e, ttl, q.redis, t, c).0;
      IncrementAgrees(e, f, ttl, q.redis, t, c);
    }
  }

  lemma SampleAgrees(e: Environment, f: Environment, ttl: nat, p: Pair, t: AlertType, c: AlertCondition)
    requires Agree(e, f, p.redis.issued, CountSample(e, ttl, p, t, c).0.redis.issued)
    ensures CountSample(f, ttl, p, t, c) == CountSample(e, ttl, p, t, c)
    ensures Recover(f, ttl, p) == Recover(e, ttl, p)
    ensures p.redis.issued <= CountSample(e, ttl, p, t, c).0.redis.issued
  {
    RecoverAgrees(e, e, ttl, p);
    CountAgrees(e, e, ttl, Recover(e, ttl, p), t, c);
    RecoverAgrees(e, f, ttl, p);
    CountAgrees(e, f, ttl, Recover(e, ttl, p), t, c);
  }

  /** Which keys a sample finds depends only on the commands it issues. */
  lemma PromptAgrees(e: Environment, f: Environment, ttl: nat, p: Pair, op: Op, t: AlertType)
    requires op.Sample? && Agree(e, f, p.redis.issued, Do(e, ttl, p, op).0.redis.issued)
    ensures Prompt(f, ttl, p, op, t) <==> Prompt(e, ttl, p, op, t)
  {
    var q := Recover(e, ttl, p);
    SampleAgrees(e, f, ttl, p, op.kind, op.condition);
    RecoverAgrees(e, e, ttl, p);
    if Supported(op.kind) && !Do(e, ttl, p, op).0.failed {
      CountIssues(e, ttl, q, op.kind, op.condition);
      var n := q.redis.issued;
      assert e(n) == f(n) && e(n + 1) == f(n + 1);
    }
  }

  lemma CountIssues(e: Environment, ttl: nat, q: Pair, t: AlertType, c: AlertCondition)
    requires Supported(t) && !CountOn(e, ttl, q, t, c).0.failed
    ensures q.redis.issued + 3 <= CountOn(e, ttl, q, t, c).0.redis.issued
  {
    var w1 := Exec(e, q.redis, t, Condition, Get).0;
    assert CountOn(e, ttl, q, t, c).0.redis == Increment(e, ttl, q.redis, t, c).0;
    assert w1.issued == q.redis.issued + 1;
  }

  predicate SamplesOnly(ops: seq<Op>) {
    forall i :: 0 <= i < |ops| ==> ops[i].Sample?
  }

  /** A schedule changed only for commands not yet issued gives the same run. */
  lemma {:induction false} RunAgrees(e: Environment, f: Environment, ttl: nat, start: int, ops: seq<Op>, t: AlertType)
    requires SamplesOnly(ops) && Agree(e, f, 0, After(e, ttl, start, ops).redis.issued)
    ensures After(f, ttl, start, ops) == After(e, ttl, start, ops)
    ensures TraceOf(f, ttl, start, ops, t) == TraceOf(e, ttl, start, ops, t)
    ensures PromptRun(f, ttl, start, ops, t) <==> PromptRun(e, ttl, start, ops, t)
  {
    if ops != [] {
      var front, op := ops[..|ops| - 1], ops[|ops| - 1];
      var p := After(e, ttl, start, front);
      SampleAgrees(e, e, ttl, p, op.kind, op.condition);
      RunAgrees(e, f, ttl, start, front, t);
      SampleAgrees(e, f, ttl, p, op.kind, op.condition);
      PromptAgrees(e, f, ttl, p, op, t);
    }
  }

  /** A sample whose first command is refused goes to memory, and leaves Redis as it was. */
  lemma RefusedSample(env: Environment, p: Pair, k: AlertType, c: AlertCondition)
    requires Supported(k) && env(p.redis.issued) == Step(0, Refused)
    ensures Recover(env, 1, p).failed == p.failed
    ensures var p' := CountSample(env, 1, p, k, c).0;
            p'.failed && p'.redis == p.redis.(issued := p.redis.issued + 1)
  {
  }

  /** A recovery whose commands are answered copies memory's states, which last past the present moment. */
  lemma AnsweredRecovery(env: Environment, p: Pair, k: AlertType)
    requires Supported(k) && forall j :: p.redis.issued <= j ==> env(j) == Step(0, Done)
    requires 0 <= StateAt(p.memory, k).count && (!p.failed ==> Sane(p.redis.At(k)))
    requires Outlives(p.redis.At(k), p.redis.now)
    ensures var q := Recover(env, 1, p);
            && !q.failed && q.redis.now == p.redis.now && p.redis.issued <= q.redis.issued
            && Sane(q.redis.At(k)) && Outlives(q.redis.At(k), q.redis.now)
  {
    if p.failed {
      assert env(p.redis.issued) == Step(0, Done) && env(p.redis.issued + 1) == Step(0, Done);
      ImageHolds(StateAt(p.memory, k), p.redis.now, 1);
    }
  }

  /** A sample whose commands are answered, none of them taking time, is counted by a trusted Redis. */
  lemma AnsweredCount(env: Environment, q: Pair, k: AlertType, c: AlertCondition)
    requires Supported(k) && forall j :: q.redis.issued <= j ==> env(j) == Step(0, Done)
    requires !q.failed && Sane(q.redis.At(k)) && Outlives(q.redis.At(k), q.redis.now)
    ensures var p' := CountOn(env, 1, q, k, c).0;
            !p'.failed && p'.redis.now == q.redis.now && Outlives(p'.redis.At(k), p'.redis.now)
  {
    var w := q.redis;
    forall j | w.issued <= j < w.issued + 4
      ensures env(j) == Step(0, Done)
    {
    }
    AnswersInTime(env, w, k, c);
    if Read(w.At(k).condition, Times(env, w).0) == c {
      MatchedShape(env, 1, w, k, c);
    } else {
      RestartedShape(env, 1, w, k, c);
    }
  }

  lemma AnswersInTime(env: Environment, w: Slots, k: AlertType, c: AlertCondition)
    requires Supported(k) && Sane(w.At(k)) && forall j :: w.issued <= j < w.issued + 4 ==> env(j) == Step(0, Done)
    ensures Increment(env, 1, w, k, c).1.Ok? && Increment(env, 1, w, k, c).0.now == w.now
  {
    assert env(w.issued) == env(w.issued + 1) == env(w.issued + 2) == env(w.issued + 3) == Step(0, Done);
  }

  /** A run of samples in which no time passes, with the events it meant for one type. */
  ghost predicate Reached(refused: set<nat>, ops: seq<Op>, t: AlertType, es: seq<Event>, failed: bool) {
    var env := Refusing(refused);
    var p := After(env, 1, 0, ops);
    && SamplesOnly(ops) && PromptRun(env, 1, 0, ops, t)
    && TraceOf(env, 1, 0, ops, t).events == es && p.failed == failed
    && p.redis.now == 0 && (forall k :: k in refused ==> k < p.redis.issued)
    && Outlives(p.redis.cpu, 0) && Outlives(p.redis.mem, 0)
  }

  lemma Refuse(refused: set<nat>, ops: seq<Op>, t: AlertType, es: seq<Event>, failed: bool, k: AlertType,
               c: AlertCondition)
    requires Supported(t) && Supported(k) && Reached(refused, ops, t, es, failed)
    ensures var n := After(Refusing(refused), 1, 0, ops).redis.issued;
            Reached(refused + {n}, ops + [Sample(k, c)], t, es + if k == t then [ByMemory(c)] else [], true)
  {
    var p := After(Refusing(refused), 1, 0, ops);
    var all, op, env := ops + [Sample(k, c)], Sample(k, c), Refusing(refused + {p.redis.issued});
    assert all[..|ops|] == ops && all[|ops|] == op;
    RunAgrees(Refusing(refused), env, 1, 0, ops, t);
    RefusedSample(env, p, k, c);
    assert After(env, 1, 0, all) == CountSample(env, 1, p, k, c).0;
    var tr := TraceOf(env, 1, 0, ops, t);
    assert TraceOf(env, 1, 0, all, t) == Note(env, 1, tr, t, p, op);
    assert es + [] == es;
  }

  lemma AnsweredSample(env: Environment, p: Pair, k: AlertType, c: AlertCondition)
    requires Supported(k) && forall j :: p.redis.issued <= j ==> env(j) == Step(0, Done)
    requires forall u | Supported(u) ::
               && 0 <= StateAt(p.memory, u).count && (!p.failed ==> Sane(p.redis.At(u)))
               && Outlives(p.redis.At(u), p.redis.now)
    ensures !Recover(env, 1, p).failed
    ensures var p' := CountSample(env, 1, p, k, c).0;
            && !p'.failed && p'.redis.now == p.redis.now && p.redis.issued <= p'.redis.issued
            && forall u | Supported(u) :: Outlives(p'.redis.At(u), p'.redis.now)
  {
    var q := Recover(env, 1, p);
    AnsweredRecovery(env, p, HighCPU);
    AnsweredRecovery(env, p, HighMem);
    AnsweredCount(env, q, k, c);
    CountAgrees(env, env, 1, q, k, c);
    assert CountOn(env, 1, q, k, c).0.redis == Increment(env, 1, q.redis, k, c).0;
    CallsFrame(env, 1, q.redis, k, c, HighCPU);
    CallsFrame(env, 1, q.redis, k, c, HighMem);
  }

  lemma Answer(refused: set<nat>, ops: seq<Op>, t: AlertType, es: seq<Event>, failed: bool, k: AlertType,
               c: AlertCondition)
    requires Supported(t) && Supported(k) && Reached(refused, ops, t, es, failed)
    ensures Reached(refused, ops + [Sample(k, c)], t,
                    es + (if failed then [Resynced] else []) + if k == t then [ByRedis(c)] else [], false)
  {
    var env := Refusing(refused);
    RunIsSane(env, ops, HighCPU);
    RunIsSane(env, ops, HighMem);
    AnsweredStep(env, After(env, 1, 0, ops), TraceOf(env, 1, 0, ops, t), t, k, c);
    OneMoreSample(env, ops, k, c, t);
  }

  // What an answered sample finds: counts that can be read, and keys that are there.
  predicate Sound(p: Pair, u: AlertType) {
    0 <= StateAt(p.memory, u).count && (!p.failed ==> Sane(p.redis.At(u))) && Outlives(p.redis.At(u), p.redis.now)
  }

  lemma AnsweredStep(env: Environment, p: Pair, tr: Trace, t: AlertType, k: AlertType, c: AlertCondition)
    requires Supported(t) && Supported(k) && Sound(p, HighCPU) && Sound(p, HighMem)
    requires forall j :: p.redis.issued <= j ==> env(j) == Step(0, Done)
    ensures var p' := CountSample(env, 1, p, k, c).0;
            && !p'.failed && p'.redis.now == p.redis.now && p.redis.issued <= p'.redis.issued
            && Outlives(p'.redis.cpu, p'.redis.now) && Outlives(p'.redis.mem, p'.redis.now)
    ensures Prompt(env, 1, p, Sample(k, c), t)
    ensures Note(env, 1, tr, t, p, Sample(k, c)).events
         == tr.events + (if p.failed then [Resynced] else []) + if k == t then [ByRedis(c)] else []
  {
    AnsweredSample(env, p, k, c);
    AnsweredNote(env, tr, t, p, k, c);
    AnsweredIsPrompt(env, p, t, k, c);
    var w := CountSample(env, 1, p, k, c).0.redis;
    assert w.cpu == w.At(HighCPU) && w.mem == w.At(HighMem);
  }

  lemma {:induction false} OneMoreSample(env: Environment, ops: seq<Op>, k: AlertType, c: AlertCondition, t: AlertType)
    ensures var p, op, all := After(env, 1, 0, ops), Sample(k, c), ops + [Sample(k, c)];
            && After(env, 1, 0, all) == CountSample(env, 1, p, k, c).0
            && TraceOf(env, 1, 0, all, t) == Note(env, 1, TraceOf(env, 1, 0, ops, t), t, p, op)
            && (PromptRun(env, 1, 0, all, t) <==> PromptRun(env, 1, 0, ops, t) && Prompt(env, 1, p, op, t))
            && (SamplesOnly(ops) ==> SamplesOnly(all))
  {
    var all := ops + [Sample(k, c)];
    assert all[..|ops|] == ops && all[|ops|] == Sample(k, c);
  }

  lemma AnsweredIsPrompt(env: Environment, p: Pair, t: AlertType, k: AlertType, c: AlertCondition)
    requires Supported(t) && forall j :: p.redis.issued <= j ==> env(j) == Step(0, Done)
    requires 0 <= StateAt(p.memory, t).count && (!p.failed ==> Sane(p.redis.At(t)))
    requires Outlives(p.redis.At(t), p.redis.now)
    ensures Prompt(env, 1, p, Sample(k, c), t)
  {
    AnsweredRecovery(env, p, t);
    var w := Recover(env, 1, p).redis;
    assert env(w.issued) == env(w.issued + 1) == Step(0, Done);
    assert Times(env, w).0 == Times(env, w).1 == w.now;
  }

  lemma RunIsSane(env: Environment, ops: seq<Op>, u: AlertType)
    requires Supported(u)
    ensures var p := After(env, 1, 0, ops);
            0 <= StateAt(p.memory, u).count && (!p.failed ==> Sane(p.redis.At(u)))
  {
    RunKeeps(env, 1, 0, ops, u);
  }

  lemma AnsweredNote(env: Environment, tr: Trace, t: AlertType, p: Pair, k: AlertType, c: AlertCondition)
    requires !Recover(env, 1, p).failed && !CountSample(env, 1, p, k, c).0.failed
    ensures Note(env, 1, tr, t, p, Sample(k, c)).events
         == tr.events + (if p.failed then [Resynced] else []) + if k == t then [ByRedis(c)] else []
  {
    var tr' := NoteRecovery(tr, p, Recover(env, 1, p));
    assert Note(env, 1, tr, t, p, Sample(k, c)) == NoteService(tr', t, Sample(k, c), CountSample(env, 1, p, k, c).0);
    assert tr.events + [] == tr.events && tr'.events + [] == tr'.events;
  }

  function Other(t: AlertType): AlertType {
    if t.HighCPU? then HighMem else HighCPU
  }

  /** One more event of a lawful order, from a state in which the flag is up exactly when memory has served. */
  lemma RealiseNext(front: seq<Event>, e: Event, t: AlertType, refused: set<nat>, ops: seq<Op>)
    returns (refused': set<nat>, ops': seq<Op>)
    requires Supported(t) && Reached(refused, ops, t, front, Pending(front)) && (e.ByRedis? ==> !Pending(front))
    ensures Reached(refused', ops', t, front + [e], !e.Resynced? && !e.ByRedis?)
    ensures !e.Resynced? ==> ops' != [] && ops'[|ops'| - 1] == Sample(t, e.condition)
  {
    match e
    case ByMemory(c) =>
      Refuse(refused, ops, t, front, Pending(front), t, c);
      refused', ops' := refused + {After(Refusing(refused), 1, 0, ops).redis.issued}, ops + [Sample(t, c)];
    case ByRedis(c) =>
      Answer(refused, ops, t, front, false, t, c);
      refused', ops' := refused, ops + [Sample(t, c)];
      assert front + [] + [e] == front + [e];
    case Resynced =>
      refused', ops' := RealiseResync(front, t, refused, ops);
  }

  lemma RealiseResync(front: seq<Event>, t: AlertType, refused: set<nat>, ops: seq<Op>)
    returns (refused': set<nat>, ops': seq<Op>)
    requires Supported(t) && Reached(refused, ops, t, front, Pending(front))
    ensures Reached(refused', ops', t, front + [Resynced], false)
  {
    var other := Sample(Other(t), CONDITION_NORMAL);
    refused', ops' := refused, ops;
    if !Pending(front) {
      Refuse(refused, ops, t, front, false, Other(t), CONDITION_NORMAL);
      refused', ops' := refused + {After(Refusing(refused), 1, 0, ops).redis.issued}, ops + [other];
      assert front + [] == front;
    }
    Answer(refused', ops', t, front, true, Other(t), CONDITION_NORMAL);
    ops' := ops' + [other];
    assert front + [Resynced] + [] == front + [Resynced];
  }

  /**
   Every lawful order of service arises: refused commands choose memory, samples of the other type bring resyncs
   about.
   */
  lemma {:induction false} Realise(es: seq<Event>, t: AlertType) returns (refused: set<nat>, ops: seq<Op>)
    requires Supported(t) && Lawful(es)
    ensures Reached(refused, ops, t, es, Pending(es))
    ensures es != [] && !es[|es| - 1].Resynced? ==> ops != [] && ops[|ops| - 1] == Sample(t, es[|es| - 1].condition)
  {
    refused, ops := {}, [];
    if es == [] {
      ReachedNone(t);
    } else {
      var front, e := es[..|es| - 1], es[|es| - 1];
      LastOf(es);
      refused, ops := Realise(front, t);
      refused, ops := RealiseNext(front, e, t, refused, ops);
    }
  }

  lemma ReachedNone(t: AlertType)
    ensures Reached({}, [], t, [], false)
  {
  }

  lemma LastOf(es: seq<Event>)
    requires es != [] && Lawful(es)
    ensures var front, e := es[..|es| - 1], es[|es| - 1];
            && es == front + [e] && Lawful(front) && (e.ByRedis? ==> !Pending(front))
            && (Pending(es) <==> !e.Resynced? && !e.ByRedis?)
  {
  }

  /** The orders of service that runs go through are exactly the lawful ones. */
  lemma LawfulIffReached(es: seq<Event>, t: AlertType)
    requires Supported(t)
    ensures Lawful(es) <==> exists env, ttl, start, ops :: TraceOf(env, ttl, start, ops, t).events == es
  {
    if env, ttl, start, ops :| TraceOf(env, ttl, start, ops, t).events == es {
      EventsLawful(env, ttl, start, ops, t);
    }
    if Lawful(es) {
      var refused, ops := Realise(es, t);
      assert TraceOf(Refusing(refused), 1, 0, ops, t).events == es;
    }
  }

  /** One more sample of a type is counted at most as the run of all its samples. */
  predicate CountsWithin(env: Environment, ttl: nat, start: int, ops: seq<Op>, t: AlertType, c: AlertCondition) {
    var n := Response(env, ttl, start, ops, Sample(t, c)).count;
    n.Ok? && 1 <= n.value <= Run(SamplesOf(ops, t) + [c])
  }

  /** A run that ends in a sample of the type and serves it in a given order. */
  predicate ServedIn(es: seq<Event>, env: Environment, ttl: nat, start: int, ops: seq<Op>, t: AlertType,
                     c: AlertCondition) {
    SameService(es, TraceOf(env, ttl, start, ops + [Sample(t, c)], t).events)
  }

  /**
   For any order of service the store can go through, its runs never count ahead of the samples exactly when the order
   is Redis, then memory, then Redis, with no resync after Redis has served again. This does not depend on expiry.
   */
  lemma RunsNeverAheadIff(es: seq<Event>, t: AlertType)
    requires Supported(t) && Lawful(es) && es != [] && !es[|es| - 1].Resynced?
    ensures PhaseOf(es) != Broken
       <==> forall env, ttl, start, ops, c ::
              c != "" && ServedIn(es, env, ttl, start, ops, t, c) ==> CountsWithin(env, ttl, start, ops, t, c)
  {
    if PhaseOf(es) != Broken {
      forall env, ttl, start, ops, c | c != "" && ServedIn(es, env, ttl, start, ops, t, c)
        ensures CountsWithin(env, ttl, start, ops, t, c)
      {
        UnbrokenCounts(es, env, ttl, start, ops, t, c);
      }
    } else {
      var env, ops, c := BrokenCountsAhead(es, t);
      assert c != "" && ServedIn(es, env, 1, 0, ops, t, c) && !CountsWithin(env, 1, 0, ops, t, c);
    }
  }

  lemma UnbrokenCounts(es: seq<Event>, env: Environment, ttl: nat, start: int, ops: seq<Op>, t: AlertType,
                       c: AlertCondition)
    requires Supported(t) && PhaseOf(es) != Broken && es != [] && !es[|es| - 1].Resynced?
    requires c != "" && ServedIn(es, env, ttl, start, ops, t, c)
    ensures CountsWithin(env, ttl, start, ops, t, c)
  {
    var all := ops + [Sample(t, c)];
    assert all[..|ops|] == ops;
    var fs := TraceOf(env, ttl, start, all, t).events;
    SameServiceSamePhase(es, fs);
    EventsLawful(env, ttl, start, all, t);
    CountIsSplicedRun(env, ttl, start, ops, t, c);
    SeenAtMostTrue(fs);
    TraceHasAllSamples(env, ttl, start, all, t);
  }

  lemma BrokenCountsAhead(es: seq<Event>, t: AlertType) returns (env: Environment, ops: seq<Op>, c: AlertCondition)
    requires Supported(t) && Lawful(es) && PhaseOf(es) == Broken && es != [] && !es[|es| - 1].Resynced?
    ensures c != "" && ServedIn(es, env, 1, 0, ops, t, c) && !CountsWithin(env, 1, 0, ops, t, c)
  {
    var fs := Painted(es, es[|es| - 1].ByRedis?);
    PaintedKeepsService(es, es[|es| - 1].ByRedis?);
    PaintedCountsAhead(es);
    SameServiceSamePhase(es, fs);
    env, ops := LastSample(fs, t);
    c := CONDITION_HIGH;
    SplicedCount(env, ops, t, c, fs);
  }

  /** A lawful order that ends in a sample arises from a run that ends in one. */
  lemma LastSample(fs: seq<Event>, t: AlertType) returns (env: Environment, ops: seq<Op>)
    requires Supported(t) && Lawful(fs) && fs != [] && !fs[|fs| - 1].Resynced?
    ensures var all := ops + [Sample(t, fs[|fs| - 1].condition)];
            TraceOf(env, 1, 0, all, t).events == fs && PromptRun(env, 1, 0, all, t)
  {
    var refused, all := Realise(fs, t);
    env, ops := Refusing(refused), all[..|all| - 1];
    LastJoins(all, Sample(t, fs[|fs| - 1].condition));
  }

  lemma LastJoins(all: seq<Op>, op: Op)
    requires all != [] && all[|all| - 1] == op
    ensures all == all[..|all| - 1] + [op]
  {
  }

  /** With no expiry, the count of the last sample is the run of what its server has seen. */
  lemma SplicedCount(env: Environment, ops: seq<Op>, t: AlertType, c: AlertCondition, fs: seq<Event>)
    requires Supported(t)
    requires TraceOf(env, 1, 0, ops + [Sample(t, c)], t).events == fs && PromptRun(env, 1, 0, ops + [Sample(t, c)], t)
    ensures Response(env, 1, 0, ops, Sample(t, c)).count == Ok(Run(Seen(fs)))
    ensures Samples(fs) == SamplesOf(ops, t) + [c]
  {
    var all := ops + [Sample(t, c)];
    assert all[..|ops|] == ops;
    CountIsSplicedRun(env, 1, 0, ops, t, c);
    TraceHasAllSamples(env, 1, 0, all, t);
  }
}
