/** What may be read from Redis while it is trusted, what a resync restores, and where the guarantees end. */
module TrustRuns {
  import opened Model
  import opened Redis
  import opened RedisStore
  import opened RedisCounts
  import opened InMemory
  import opened RunLength
  import opened Fallback
  import opened FallbackRuns
  import opened OutageCounts
  import opened Schedules
  import Decimal

  /**
   Torn writes are never observed: while Redis is trusted, the count beside a readable condition is at most its
   run.
   */
  lemma TrustedIsCoherent(env: Environment, ttl: nat, start: int, ops: seq<Op>, t: AlertType)
    requires Supported(t) && !After(env, ttl, start, ops).failed
    ensures var w := After(env, ttl, start, ops).redis;
            var s := w.At(t);
            Live(s.condition, w.now) && s.count.Some? ==>
              0 <= HeldCount(s.count)
                <= Trailing(Spliced(TraceOf(env, ttl, start, ops, t).events), s.condition.value.text)
  {
    RunKeeps(env, ttl, start, ops, t);
  }

  /** After any run and any number of failed attempts, a recovery leaves Redis equal to memory for both types. */
  lemma RecoveryRestores(env: Environment, ttl: nat, start: int, ops: seq<Op>)
    requires var p := After(env, ttl, start, ops); p.failed && !Recover(env, ttl, p).failed
    ensures var q := Recover(env, ttl, After(env, ttl, start, ops));
            forall t :: Supported(t) ==>
              var tr := TraceOf(env, ttl, start, ops, t);
              && Held(q.redis.At(t)) == StateAt(q.memory, t) == StateOf(ServedByMemory(tr.events), tr.memoryMarks)
              && (q.redis.now < After(env, ttl, start, ops).redis.now + ttl ==> Outlives(q.redis.At(t), q.redis.now))
  {
    var p := After(env, ttl, start, ops);
    var q := Recover(env, ttl, p);
    forall t | Supported(t)
      ensures var tr := TraceOf(env, ttl, start, ops, t);
              && Held(q.redis.At(t)) == StateAt(q.memory, t) == StateOf(ServedByMemory(tr.events), tr.memoryMarks)
              && (q.redis.now < p.redis.now + ttl ==> Outlives(q.redis.At(t), q.redis.now))
    {
      RunKeeps(env, ttl, start, ops, t);
      var written := ResyncCopies(env, ttl, p, t);
    }
  }

  /** While Redis is trusted and answers, activity reads as the last mark of the spliced sequence. */
  lemma ActiveIsLastMark(env: Environment, ttl: nat, start: int, ops: seq<Op>, t: AlertType)
    requires Supported(t)
    ensures var p, tr := After(env, ttl, start, ops), TraceOf(env, ttl, start, ops, t);
            var told := Response(env, ttl, start, ops, Asking(t)).active;
            && (!env(p.redis.issued).fate.Done? ==> told == Ok(LastMark(tr.memoryMarks)))
            && (env(p.redis.issued).fate.Done? && !p.failed ==> told == Ok(LastMark(tr.memoryMarks + tr.redisMarks)))
  {
    RunKeeps(env, ttl, start, ops, t);
  }

  predicate ActiveKept(w: Slots) {
    && (w.cpu.active.Some? ==> w.cpu.active.value.expires.None?)
    && (w.mem.active.Some? ==> w.mem.active.value.expires.None?)
  }

  lemma RecoveryKeepsActive(env: Environment, ttl: nat, p: Pair)
    requires ActiveKept(p.redis)
    ensures ActiveKept(Recover(env, ttl, p).redis)
  {
    var w := Overwrite(env, ttl, p.redis, HighMem, StateAt(p.memory, HighMem)).0;
    assert ActiveKept(w);
  }

  lemma CountKeepsActive(env: Environment, ttl: nat, q: Pair, k: AlertType, c: AlertCondition)
    requires ActiveKept(q.redis)
    ensures ActiveKept(CountOn(env, ttl, q, k, c).0.redis)
  {
    if Supported(k) {
      CallsFrame(env, ttl, q.redis, k, c, HighCPU);
      CallsFrame(env, ttl, q.redis, k, c, HighMem);
    }
  }

  lemma MarkKeepsActive(env: Environment, q: Pair, k: AlertType, active: bool)
    requires ActiveKept(q.redis)
    ensures ActiveKept(MarkOn(env, q, k, active).0.redis)
  {
  }

  /** The activity keys never expire, torn or not. */
  lemma {:induction false} ActiveNeverExpires(env: Environment, ttl: nat, start: int, ops: seq<Op>)
    ensures ActiveKept(After(env, ttl, start, ops).redis)
  {
    if ops != [] {
      var front := ops[..|ops| - 1];
      ActiveNeverExpires(env, ttl, start, front);
      var p := After(env, ttl, start, front);
      RecoveryKeepsActive(env, ttl, p);
      match ops[|ops| - 1]
      case Sample(k, c) => CountKeepsActive(env, ttl, Recover(env, ttl, p), k, c);
      case Marking(k, a) => MarkKeepsActive(env, Recover(env, ttl, p), k, a);
      case Asking(_) =>
    }
  }

  /** Whether the script of a type takes effect when a resync begins at the `n`-th command. */
  predicate Rewritten(env: Environment, n: nat, t: AlertType) {
    if t.HighMem? then !env(n).fate.Refused? else env(n).fate.Done? && !env(n + 1).fate.Refused?
  }

  // The resync of both types is answered.
  predicate Resynchronised(env: Environment, n: nat) {
    env(n).fate.Done? && env(n + 1).fate.Done?
  }

  /** The activity Redis holds for a type after a mark, from what was held before and the fates of its commands. */
  function ActivityAfter(env: Environment, p: Pair, t: AlertType, active: bool): bool {
    var n := p.redis.issued;
    if !p.failed then if env(n).fate.Refused? then Held(p.redis.At(t)).active else active
    else if Resynchronised(env, n) then if env(n + 2).fate.Refused? then StateAt(p.memory, t).active else active
    else if Rewritten(env, n, t) then StateAt(p.memory, t).active
    else Held(p.redis.At(t)).active
  }

  lemma WrittenActivity(env: Environment, q: Pair, t: AlertType, active: bool)
    requires Supported(t)
    ensures Held(MarkOn(env, q, t, active).0.redis.At(t)).active
         == (if q.failed || env(q.redis.issued).fate.Refused? then Held(q.redis.At(t)).active else active)
  {
  }

  lemma RecoveredActivity(env: Environment, ttl: nat, p: Pair, t: AlertType)
    requires Supported(t) && p.failed
    ensures var q := Recover(env, ttl, p);
            && (!q.failed <==> Resynchronised(env, p.redis.issued))
            && (!q.failed ==> q.redis.issued == p.redis.issued + 2)
            && Held(q.redis.At(t)).active
                 == (if Rewritten(env, p.redis.issued, t) then StateAt(p.memory, t).active
                     else Held(p.redis.At(t)).active)
  {
  }

  lemma MarkedActivity(env: Environment, ttl: nat, p: Pair, t: AlertType, active: bool)
    requires Supported(t)
    ensures Held(MarkActive(env, ttl, p, t, active).0.redis.At(t)).active == ActivityAfter(env, p, t, active)
  {
    var q := Recover(env, ttl, p);
    assert MarkActive(env, ttl, p, t, active) == MarkOn(env, q, t, active);
    if p.failed {
      RecoveredActivity(env, ttl, p, t);
    } else {
      assert q == p;
    }
    WrittenActivity(env, q, t, active);
  }

  lemma MarkingKeepsActive(env: Environment, ttl: nat, p: Pair, k: AlertType, active: bool)
    requires ActiveKept(p.redis)
    ensures ActiveKept(MarkActive(env, ttl, p, k, active).0.redis)
  {
    RecoveryKeepsActive(env, ttl, p);
    MarkKeepsActive(env, Recover(env, ttl, p), k, active);
  }

  /**
   A store that is asked right after a mark tells that mark exactly when, before the call, one of these held.
   Redis was trusted, and the write was not refused or the last mark of the spliced sequence was the same. It was not,
   the resync was answered, and the write was not refused or memory's last mark was the same. The resync was broken
   off, and what the type was left with was the same: memory's last mark if its script took effect, and otherwise
   what Redis held.
   */
  lemma OwnMarkReadIff(env: Environment, ttl: nat, start: int, ops: seq<Op>, t: AlertType, active: bool)
    requires Supported(t)
    requires env(MarkActive(env, ttl, After(env, ttl, start, ops), t, active).0.redis.issued).fate.Done?
    ensures var p, tr := After(env, ttl, start, ops), TraceOf(env, ttl, start, ops, t);
            var n, told := p.redis.issued, QueryActive(env, MarkActive(env, ttl, p, t, active).0, t).1;
            told == Ok(active) <==>
              if !p.failed then !env(n).fate.Refused? || LastMark(tr.memoryMarks + tr.redisMarks) == active
              else if Resynchronised(env, n) then !env(n + 2).fate.Refused? || LastMark(tr.memoryMarks) == active
              else if Rewritten(env, n, t) then LastMark(tr.memoryMarks) == active
              else Held(p.redis.At(t)).active == active
  {
    ActiveNeverExpires(env, ttl, start, ops);
    MarkTold(env, ttl, After(env, ttl, start, ops), t, active);
    HeldMarks(env, ttl, start, ops, t);
  }

  /** Redis answers the write of a mark itself. */
  predicate TakenByRedis(env: Environment, p: Pair) {
    var n := p.redis.issued;
    if p.failed then Resynchronised(env, n) && env(n + 2).fate.Done? else env(n).fate.Done?
  }

  /** A question that Redis does not answer tells the mark exactly when memory took it, or had the same before. */
  lemma OwnMarkWithoutRedisIff(env: Environment, ttl: nat, start: int, ops: seq<Op>, t: AlertType, active: bool)
    requires Supported(t)
    requires !env(MarkActive(env, ttl, After(env, ttl, start, ops), t, active).0.redis.issued).fate.Done?
    ensures var p, tr := After(env, ttl, start, ops), TraceOf(env, ttl, start, ops, t);
            var told := QueryActive(env, MarkActive(env, ttl, p, t, active).0, t).1;
            told == Ok(active) <==> !TakenByRedis(env, p) || LastMark(tr.memoryMarks) == active
  {
    var p := After(env, ttl, start, ops);
    var q := Recover(env, ttl, p);
    HeldMarks(env, ttl, start, ops, t);
    assert MarkActive(env, ttl, p, t, active) == MarkOn(env, q, t, active);
    if p.failed {
      RecoveredActivity(env, ttl, p, t);
    }
    MemoryMark(env, q, t, active);
  }

  lemma MemoryMark(env: Environment, q: Pair, t: AlertType, active: bool)
    requires Supported(t)
    ensures StateAt(MarkOn(env, q, t, active).0.memory, t).active
         == (if !q.failed && env(q.redis.issued).fate.Done? then StateAt(q.memory, t).active else active)
  {
  }

  lemma HeldMarks(env: Environment, ttl: nat, start: int, ops: seq<Op>, t: AlertType)
    requires Supported(t)
    ensures var p, tr := After(env, ttl, start, ops), TraceOf(env, ttl, start, ops, t);
            && StateAt(p.memory, t).active == LastMark(tr.memoryMarks)
            && (!p.failed ==> Held(p.redis.At(t)).active == LastMark(tr.memoryMarks + tr.redisMarks))
  {
    RunKeeps(env, ttl, start, ops, t);
  }

  lemma MarkTold(env: Environment, ttl: nat, p: Pair, t: AlertType, active: bool)
    requires Supported(t) && ActiveKept(p.redis)
    requires env(MarkActive(env, ttl, p, t, active).0.redis.issued).fate.Done?
    ensures QueryActive(env, MarkActive(env, ttl, p, t, active).0, t).1 == Ok(ActivityAfter(env, p, t, active))
  {
    MarkingKeepsActive(env, ttl, p, t, active);
    ToldActivity(env, MarkActive(env, ttl, p, t, active).0, t);
    MarkedActivity(env, ttl, p, t, active);
  }

  lemma ToldActivity(env: Environment, p: Pair, t: AlertType)
    requires Supported(t) && ActiveKept(p.redis) && env(p.redis.issued).fate.Done?
    ensures QueryActive(env, p, t).1 == Ok(Held(p.redis.At(t)).active)
  {
  }

  /** The mark that memory took during an outage is not what the store answers once Redis is back. */
  lemma OwnMarkCanBeMissed()
    ensures var p := MarkActive(Refusing({0}), 60, Fresh(0), HighCPU, true).0;
            QueryActive(Refusing({0}), p, HighCPU).1 == Ok(false)
  {
  }

  // A slot written at time 0 with a 60 second expiry.
  function Written(condition: string, count: string): Slot {
    Slot(Some(Entry(condition, Some(60))), Some(Entry(count, Some(60))), None)
  }

  /** The three ways one increment goes through the keys of a type when no time passes. */
  lemma IncrementSteps(env: Environment, w: Slots, c: AlertCondition)
    requires forall k: nat :: env(k).delay == 0
    requires w.now == 0 && env(w.issued).fate.Done? && c != ""
    ensures var n := w.issued;
            var changed := w.cpu.(condition := Stored(c, 0, Some(60)));
            (w.cpu.condition.None? || (w.cpu.condition.value.text != c && Live(w.cpu.condition, 0))) ==>
              && (env(n + 1).fate.Done? && env(n + 2).fate.Done? ==>
                    Increment(env, 60, w, HighCPU, c)
                      == (w.(cpu := Written(c, "1").(active := w.cpu.active), issued := n + 3), Ok(1)))
              && (env(n + 1).fate.Done? && env(n + 2).fate.Refused? ==>
                    Increment(env, 60, w, HighCPU, c) == (w.(cpu := changed, issued := n + 3), Err(Unavailable)))
    ensures w.cpu == Written(c, "1") && (forall k :: w.issued < k < w.issued + 4 ==> env(k).fate.Done?) ==>
              Increment(env, 60, w, HighCPU, c) == (w.(cpu := Written(c, "2"), issued := w.issued + 4), Ok(2))
  {
    assert Decimal.ParseInt("1") == Some(1) && Decimal.PrintInt(2) == "2";
  }

  /** One increment left a condition just written beside the count of another. */
  predicate Torn(s: Slot, s': Slot, c: AlertCondition, times: (int, int, int, int), ttl: nat) {
    Read(s.condition, times.0) != c && s'.condition == Stored(c, times.1, Some(ttl)) && s'.count == s.count
  }

  // The first of two writes takes effect and the second does not.
  predicate HalfWritten(env: Environment, n: nat) {
    env(n).fate.Lost? || (env(n).fate.Done? && env(n + 1).fate.Refused?)
  }

  /**
   An increment tears a pair whose count was not one exactly when it reads another condition, the write of the new one
   takes effect, and that of the count does not: the former's answer is lost, or the latter is refused. It then
   reports an error.
   */
  lemma TornIff(env: Environment, ttl: nat, w: Slots, t: AlertType, c: AlertCondition)
    requires Supported(t) && 0 < ttl && HeldCount(w.At(t).count) != 1
    ensures var (w', n) := Increment(env, ttl, w, t, c);
            var torn := Torn(w.At(t), w'.At(t), c, Times(env, w), ttl);
            && (torn <==>
                  && env(w.issued).fate.Done? && Read(w.At(t).condition, Times(env, w).0) != c
                  && HalfWritten(env, w.issued + 1))
            && (torn ==> n.Err?)
  {
    var s := w.At(t);
    if env(w.issued).fate.Done? && Read(s.condition, Times(env, w).0) != c {
      RestartTears(env, ttl, w, t, c);
    }
  }

  lemma RestartTears(env: Environment, ttl: nat, w: Slots, t: AlertType, c: AlertCondition)
    requires Supported(t) && 0 < ttl && HeldCount(w.At(t).count) != 1
    requires env(w.issued).fate.Done? && Read(w.At(t).condition, Times(env, w).0) != c
    ensures var (w', n) := Increment(env, ttl, w, t, c);
            var torn := Torn(w.At(t), w'.At(t), c, Times(env, w), ttl);
            && (torn <==> HalfWritten(env, w.issued + 1))
            && (torn ==> n.Err?)
  {
    var (w1, _) := Exec(env, w, t, Condition, Get);
    assert Increment(env, ttl, w, t, c) == Restart(env, ttl, w1, t, c);
    RestartedCount(w.At(t), c, Times(env, w), ttl);
  }

  const HIGH_SAMPLE := Sample(HighCPU, "high")
  const NORMAL_SAMPLE := Sample(HighCPU, "normal")

  // Refused is the second write of the third sample.
  const TEARING := Refusing({9})

  function Served(count: string, issued: nat): Pair {
    Pair(map[], Slots(Written("high", count), EMPTY_SLOT, 0, issued), false)
  }

  lemma TornFirst()
    ensures Do(TEARING, 60, Fresh(0), HIGH_SAMPLE).0 == Served("1", 3)
  {
    IncrementSteps(TEARING, NoKeys(0), "high");
  }

  lemma TornSecond()
    ensures Do(TEARING, 60, Served("1", 3), HIGH_SAMPLE).0 == Served("2", 7)
  {
    IncrementSteps(TEARING, Served("1", 3).redis, "high");
  }

  lemma TornThird()
    ensures var p := Do(TEARING, 60, Served("2", 7), NORMAL_SAMPLE).0;
            p.failed && p.redis.cpu == Written("normal", "2")
  {
    assert "high" != "normal" by { assert |"high"| != |"normal"|; }
    IncrementSteps(TEARING, Served("2", 7).redis, "normal");
  }

  /** Redis alone can be left with a new condition beside the old count; the store is then off Redis. */
  lemma TornWriteHappens()
    ensures var p := After(TEARING, 60, 0, [HIGH_SAMPLE, HIGH_SAMPLE, NORMAL_SAMPLE]);
            p.failed && p.redis.cpu == Written("normal", "2")
  {
    var one, two := [HIGH_SAMPLE], [HIGH_SAMPLE, HIGH_SAMPLE];
    var three := [HIGH_SAMPLE, HIGH_SAMPLE, NORMAL_SAMPLE];
    assert one[..0] == [] && two[..1] == one && three[..2] == two;
    TornFirst();
    TornSecond();
    TornThird();
    assert After(TEARING, 60, 0, one) == Served("1", 3);
  }

  // Refused are the first command of the first sample and the first command of the third.
  const RELAPSE := Refusing({0, 6})
  const ONE_HIGH: States := map[HighCPU := AlertState(1, "high", false)]

  function Outage(): Pair {
    Pair(ONE_HIGH, NoKeys(0).(issued := 1), true)
  }

  function Copied(): Pair {
    Pair(ONE_HIGH, Slots(Image(ONE_HIGH[HighCPU], 0, 60), Image(ZERO_STATE, 0, 60), 0, 3), false)
  }

  function Back(): Pair {
    var w := Copied().redis;
    Pair(ONE_HIGH, w.(cpu := Written("normal", "1").(active := w.cpu.active), issued := 6), false)
  }

  lemma RelapseFirst()
    ensures Recover(RELAPSE, 60, Fresh(0)) == Fresh(0)
    ensures After(RELAPSE, 60, 0, [HIGH_SAMPLE]) == Outage() && Outages(RELAPSE, 60, 0, [HIGH_SAMPLE]) == 1
  {
    assert [HIGH_SAMPLE][..0] == [];
  }

  lemma RelapseSecond()
    ensures Recover(RELAPSE, 60, Outage()) == Copied()
    ensures Do(RELAPSE, 60, Outage(), NORMAL_SAMPLE).0 == Back()
  {
    assert "high" != "normal" by { assert |"high"| != |"normal"|; }
    IncrementSteps(RELAPSE, Copied().redis, "normal");
  }

  lemma RelapseThird()
    ensures Recover(RELAPSE, 60, Back()) == Back()
    ensures Do(RELAPSE, 60, Back(), HIGH_SAMPLE).1 == GotCount(Ok(2)) && Do(RELAPSE, 60, Back(), HIGH_SAMPLE).0.failed
  {
  }

  /** Memory resumes from a stale run in a second outage: the count is 2 where the run of all samples is 1. */
  lemma SecondOutageCountsAhead()
    ensures var ops := [HIGH_SAMPLE, NORMAL_SAMPLE];
            && Outages(RELAPSE, 60, 0, ops + [HIGH_SAMPLE]) == 2
            && Response(RELAPSE, 60, 0, ops, HIGH_SAMPLE) == GotCount(Ok(2))
            && Run(SamplesOf(ops + [HIGH_SAMPLE], HighCPU)) == 1
  {
    var one, two := [HIGH_SAMPLE], [HIGH_SAMPLE, NORMAL_SAMPLE];
    var three := two + [HIGH_SAMPLE];
    assert two[..1] == one && three[..2] == two && one[..0] == [];
    RelapseFirst();
    RelapseSecond();
    RelapseThird();
    assert After(RELAPSE, 60, 0, two) == Back();
    assert "high" != "normal" by { assert |"high"| != |"normal"|; }
    assert SamplesOf(one, HighCPU) == ["high"];
    TrailingExtends(SamplesOf(two, HighCPU), "high");
  }
}
