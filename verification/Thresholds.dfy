/** Which orders of service let a given count be reached by samples that are not the last ones. */
module Thresholds {
  import opened Model
  import opened Redis
  import opened RunLength
  import opened FallbackRuns
  import opened OutageCounts
  import opened ServiceOrders

  /** What a server has seen: what memory served and, when it is Redis, what Redis has served since the last resync. */
  function SeenBy(es: seq<Event>, redis: bool): History {
    ServedByMemory(es) + if redis then ServedByRedis(es) else []
  }

  /** How many samples at the end the server has seen without a gap. */
  function SeenLast(es: seq<Event>, redis: bool): nat {
    if es == [] then 0 else
    var front := es[..|es| - 1];
    match es[|es| - 1]
    case ByRedis(_) => if redis then SeenLast(front, redis) + 1 else 0
    case ByMemory(_) => SeenLast(front, redis) + 1
    case Resynced => SeenLast(front, false)
  }

  predicate EndsInSample(es: seq<Event>) {
    es != [] && !es[|es| - 1].Resynced?
  }

  /** The last server has seen the last `n` samples, or has not seen as many as `n`. */
  predicate Safe(es: seq<Event>, n: nat)
    requires EndsInSample(es)
  {
    |Seen(es)| < n || n <= SeenLast(es, es[|es| - 1].ByRedis?)
  }

  lemma SeenByLast(es: seq<Event>)
    requires EndsInSample(es)
    ensures SeenBy(es, es[|es| - 1].ByRedis?) == Seen(es)
  {
    assert ServedByMemory(es) + [] == ServedByMemory(es);
  }

  /** Up to the gap, what the server has seen and all the samples end alike. */
  lemma {:induction false} EndAlike(es: seq<Event>, redis: bool) returns (x: History, y: History, z: History)
    requires Lawful(es) && (redis ==> !Pending(es))
    ensures Samples(es) == x + z && SeenBy(es, redis) == y + z && |z| == SeenLast(es, redis)
  {
    if es == [] {
      x, y, z := [], [], [];
    } else {
      var front, e := es[..|es| - 1], es[|es| - 1];
      assert es == front + [e];
      EventsGrow(front, e);
      x, y, z := EndAlike(front, redis && !e.Resynced?);
      x, y, z := OneMoreAlike(front, e, redis, x, y, z);
    }
  }

  lemma OneMoreAlike(front: seq<Event>, e: Event, redis: bool, x: History, y: History, z: History)
    returns (x': History, y': History, z': History)
    requires Lawful(front + [e]) && (redis ==> !Pending(front + [e]))
    requires var kept := redis && !e.Resynced?;
             Samples(front) == x + z && SeenBy(front, kept) == y + z && |z| == SeenLast(front, kept)
    ensures var es := front + [e];
            Samples(es) == x' + z' && SeenBy(es, redis) == y' + z' && |z'| == SeenLast(es, redis)
  {
    OneMoreSeen(front, e, redis);
    EventsGrow(front, e);
    if e.Resynced? {
      x', y', z' := x, y, z;
    } else if e.ByRedis? && !redis {
      x', y', z' := Samples(front + [e]), SeenBy(front + [e], redis), [];
    } else {
      x', y', z' := x, y, z + [e.condition];
      Regroup(x, z, e.condition);
      Regroup(y, z, e.condition);
    }
  }

  lemma Regroup(x: History, z: History, c: AlertCondition)
    ensures x + z + [c] == x + (z + [c])
  {
  }

  /** One more event adds to what the server has seen, or opens a gap. */
  lemma OneMoreSeen(front: seq<Event>, e: Event, redis: bool)
    requires Lawful(front + [e]) && (redis ==> !Pending(front + [e]))
    ensures var es, gap := front + [e], e.ByRedis? && !redis;
            && SeenLast(es, redis)
                 == (if gap then 0 else if e.Resynced? then SeenLast(front, false) else SeenLast(front, redis) + 1)
            && (e.Resynced? ==> SeenBy(es, redis) == SeenBy(front, false))
            && (!e.Resynced? && !gap ==> SeenBy(es, redis) == SeenBy(front, redis) + [e.condition])
  {
    assert (front + [e])[..|front|] == front;
    PhaseGrows(front, e);
    SeenByGrows(front, e, redis);
  }

  lemma SeenByGrows(front: seq<Event>, e: Event, redis: bool)
    requires e.ByMemory? ==> !redis
    ensures e.Resynced? ==> SeenBy(front + [e], redis) == SeenBy(front, false)
    ensures e.ByMemory? || (e.ByRedis? && redis) ==> SeenBy(front + [e], redis) == SeenBy(front, redis) + [e.condition]
  {
    EventsGrow(front, e);
    var m, r := ServedByMemory(front), ServedByRedis(front);
    assert m + [] == m;
    if e.ByRedis? {
      Regroup(m, r, e.condition);
    }
  }

  /** In a safe order a run of `n` before the last server is a run of `n` of all the samples. */
  lemma SafeRun(es: seq<Event>, n: nat)
    requires Lawful(es) && EndsInSample(es) && Safe(es, n) && n <= Run(Seen(es))
    ensures n <= Run(Samples(es))
  {
    var c := Latest(Seen(es));
    LastSampleSeen(es);
    SeenByLast(es);
    TrailingAtMost(Seen(es), c);
    var x, y, z := EndAlike(es, es[|es| - 1].ByRedis?);
    EndsTogether(x, y, z, n, c);
  }

  lemma EndsTogether(x: History, y: History, z: History, n: nat, c: AlertCondition)
    requires n <= |z| && n <= Trailing(y + z, c)
    ensures n <= Trailing(x + z, c)
  {
    TrailingReaches(y + z, n, c);
    TrailingReaches(x + z, n, c);
    forall i | |x + z| - n <= i < |x + z|
      ensures (x + z)[i] == c
    {
      assert (x + z)[i] == (y + z)[i - |x| + |y|];
    }
  }

  lemma {:induction false} SameServiceSeenLast(es: seq<Event>, fs: seq<Event>, redis: bool)
    requires SameService(es, fs)
    ensures SeenLast(es, redis) == SeenLast(fs, redis)
  {
    if es != [] {
      SameServiceSeenLast(es[..|es| - 1], fs[..|fs| - 1], redis && !es[|es| - 1].Resynced?);
    }
  }

  lemma SameServiceSafe(es: seq<Event>, fs: seq<Event>, n: nat)
    requires SameService(es, fs) && EndsInSample(es)
    ensures EndsInSample(fs) && (Safe(es, n) <==> Safe(fs, n))
  {
    SameServiceSamePhase(es, fs);
    SameServiceSeenLast(es, fs, es[|es| - 1].ByRedis?);
  }

  /** Painted high where the server has seen them, the samples end in as many high ones as it has seen without a gap. */
  lemma {:induction false} PaintedRun(es: seq<Event>, redis: bool)
    requires Lawful(es) && (redis ==> !Pending(es))
    ensures Trailing(Samples(Painted(es, redis)), CONDITION_HIGH) == SeenLast(es, redis)
  {
    if es != [] {
      var front, e := es[..|es| - 1], es[|es| - 1];
      var fs := Painted(front, redis && !e.Resynced?);
      PaintedRun(front, redis && !e.Resynced?);
      match e
      case ByRedis(_) => PaintedSample(fs, ByRedis(if redis then CONDITION_HIGH else CONDITION_NORMAL));
      case ByMemory(_) => PaintedSample(fs, ByMemory(CONDITION_HIGH));
      case Resynced => EventsGrow(fs, Resynced);
    }
  }

  /** In an order that is not safe, painted samples reach `n` before the last server and fall short of it themselves. */
  lemma UnsafePainted(es: seq<Event>, n: nat)
    requires Lawful(es) && EndsInSample(es) && !Safe(es, n)
    ensures var fs := Painted(es, es[|es| - 1].ByRedis?);
            && SameService(es, fs) && EndsInSample(fs) && fs[|fs| - 1].condition == CONDITION_HIGH
            && Run(Samples(fs)) < n <= Run(Seen(fs))
  {
    var redis := es[|es| - 1].ByRedis?;
    var fs := Painted(es, redis);
    PaintedKeepsService(es, redis);
    PaintedRun(es, redis);
    SameServiceSamePhase(es, fs);
    LastSampleSeen(fs);
    AllHighTogether(ServedByMemory(fs), ServedByRedis(fs));
    SeenByLast(es);
    SeenByLast(fs);
    AllHighRun(Seen(fs));
  }

  lemma AllHighTogether(m: History, r: History)
    requires AllHigh(m)
    ensures AllHigh(m + []) && (AllHigh(r) ==> AllHigh(m + r))
  {
    assert m + [] == m;
  }

  /** An unbroken order is safe for every count. */
  lemma UnbrokenIsSafe(es: seq<Event>, n: nat)
    requires Lawful(es) && EndsInSample(es) && PhaseOf(es) != Broken
    ensures Safe(es, n)
  {
    if !Safe(es, n) {
      UnsafePainted(es, n);
      NeverAheadIff(es);
      assert false;
    }
  }

  /** If one more sample of a type is counted `n`, the last `n` samples were alike. */
  predicate NotPremature(env: Environment, ttl: nat, start: int, ops: seq<Op>, t: AlertType, c: AlertCondition,
                         n: nat) {
    var r := Response(env, ttl, start, ops, Sample(t, c)).count;
    r.Ok? && (n <= r.value ==> EndsWith(SamplesOf(ops, t) + [c], n, c))
  }

  /**
   For any order of service the store can go through and any count: no run of it reaches the count before its time
   exactly when the last server has seen the last samples as far as the count goes, or has not seen as many.
   */
  lemma NeverPrematureIff(es: seq<Event>, t: AlertType, n: nat)
    requires Supported(t) && Lawful(es) && EndsInSample(es)
    ensures Safe(es, n)
       <==> forall env, ttl, start, ops, c ::
              c != "" && ServedIn(es, env, ttl, start, ops, t, c) ==> NotPremature(env, ttl, start, ops, t, c, n)
  {
    if Safe(es, n) {
      forall env, ttl, start, ops, c | c != "" && ServedIn(es, env, ttl, start, ops, t, c)
        ensures NotPremature(env, ttl, start, ops, t, c, n)
      {
        SameServiceSafe(es, TraceOf(env, ttl, start, ops + [Sample(t, c)], t).events, n);
        SafeCounts(env, ttl, start, ops, t, c, n);
      }
    } else {
      var env, ops := UnsafeCounts(es, t, n);
      assert CONDITION_HIGH != "" && ServedIn(es, env, 1, 0, ops, t, CONDITION_HIGH);
      assert !NotPremature(env, 1, 0, ops, t, CONDITION_HIGH, n);
    }
  }

  lemma SafeCounts(env: Environment, ttl: nat, start: int, ops: seq<Op>, t: AlertType, c: AlertCondition, n: nat)
    requires Supported(t) && c != ""
    requires var es := TraceOf(env, ttl, start, ops + [Sample(t, c)], t).events; EndsInSample(es) && Safe(es, n)
    ensures NotPremature(env, ttl, start, ops, t, c, n)
  {
    var all := ops + [Sample(t, c)];
    assert all[..|ops|] == ops;
    var es := TraceOf(env, ttl, start, all, t).events;
    CountIsSplicedRun(env, ttl, start, ops, t, c);
    EventsLawful(env, ttl, start, all, t);
    TraceHasAllSamples(env, ttl, start, all, t);
    TrailingReaches(Samples(es), n, c);
    if n <= Run(Seen(es)) {
      SafeRun(es, n);
    }
  }

  lemma UnsafeCounts(es: seq<Event>, t: AlertType, n: nat) returns (env: Environment, ops: seq<Op>)
    requires Supported(t) && Lawful(es) && EndsInSample(es) && !Safe(es, n)
    ensures ServedIn(es, env, 1, 0, ops, t, CONDITION_HIGH) && !NotPremature(env, 1, 0, ops, t, CONDITION_HIGH, n)
    ensures Response(env, 1, 0, ops, Sample(t, CONDITION_HIGH)).count.Ok?
  {
    var fs := Painted(es, es[|es| - 1].ByRedis?);
    UnsafePainted(es, n);
    SameServiceSamePhase(es, fs);
    env, ops := LastSample(fs, t);
    SplicedCount(env, ops, t, CONDITION_HIGH, fs);
    TrailingReaches(Samples(fs), n, CONDITION_HIGH);
  }
}
