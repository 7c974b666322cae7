/** For which samples no expiry can make the Redis store count ahead of the run. */
module ExpiryRuns {
  import opened Model
  import opened Redis
  import opened RedisStore
  import opened RedisCounts
  import opened RunLength
  import opened Schedules
  import opened FallbackRuns
  import opened OutageCounts
  import opened RedisRuns

  lemma StepAgrees(e: Environment, f: Environment, ttl: nat, w: Slots, op: Op)
    requires Agree(e, f, w.issued, DoRedis(e, ttl, w, op).0.issued)
    ensures DoRedis(f, ttl, w, op) == DoRedis(e, ttl, w, op) && w.issued <= DoRedis(e, ttl, w, op).0.issued
  {
    match op
    case Sample(t, c) => IncrementAgrees(e, f, ttl, w, t, c);
    case Marking(t, a) => if Supported(t) { ExecAgrees(e, f, w, t, Active, Set(Bit(a), None), w.issued + 1); }
    case Asking(t) => if Supported(t) { ExecAgrees(e, f, w, t, Active, Get, w.issued + 1); }
  }

  lemma {:induction false} RunAgrees(e: Environment, f: Environment, ttl: nat, start: int, ops: seq<Op>)
    requires Agree(e, f, 0, RedisAfter(e, ttl, start, ops).issued)
    ensures RedisAfter(f, ttl, start, ops) == RedisAfter(e, ttl, start, ops)
  {
    if ops != [] {
      var front, op := ops[..|ops| - 1], ops[|ops| - 1];
      var w := RedisAfter(e, ttl, start, front);
      StepAgrees(e, e, ttl, w, op);
      RunAgrees(e, f, ttl, start, front);
      StepAgrees(e, f, ttl, w, op);
    }
  }

  // Every command is answered, and only the k-th and the next but one take time.
  function Late(k: nat): Environment {
    (j: nat) => Step(if j == k || j == k + 2 then 1 else 0, Done)
  }

  const PUNCTUAL: Environment := (j: nat) => Step(0, Done)

  /** Calls that take no time leave the clock alone. */
  lemma StepKeepsTime(env: Environment, ttl: nat, w: Slots, op: Op)
    requires forall j :: w.issued <= j ==> env(j) == Step(0, Done)
    ensures DoRedis(env, ttl, w, op).0.now == w.now
  {
    if op.Sample? && Supported(op.kind) {
      var w' := DoRedis(env, ttl, w, op).0;
      CallKeepsTime(env, ttl, w, op.kind, op.condition);
    }
  }

  lemma CallKeepsTime(env: Environment, ttl: nat, w: Slots, t: AlertType, c: AlertCondition)
    requires Supported(t) && forall j :: w.issued <= j ==> env(j) == Step(0, Done)
    ensures Increment(env, ttl, w, t, c).0.now == w.now
  {
    forall j | w.issued <= j < w.issued + 4
      ensures env(j).delay == 0
    {
      assert env(j) == Step(0, Done);
    }
  }

  /** The counted keys of a type are gone one unit from now. */
  predicate ShortLived(s: Slot, now: int) {
    && (s.condition.Some? ==> s.condition.value.expires == Some(now + 1))
    && (s.count.Some? ==> s.count.value.expires == Some(now + 1))
    && Sane(s)
  }

  lemma PunctualCall(w: Slots, t: AlertType, c: AlertCondition)
    requires Supported(t) && ShortLived(w.At(t), w.now)
    ensures ShortLived(Increment(PUNCTUAL, 1, w, t, c).0.At(t), w.now)
  {
    CallKeepsTime(PUNCTUAL, 1, w, t, c);
    AnswersWhenSane(PUNCTUAL, 1, w, t, c);
    SaneAfter(PUNCTUAL, 1, w, t, c);
    if Read(w.At(t).condition, Times(PUNCTUAL, w).0) == c {
      MatchedShape(PUNCTUAL, 1, w, t, c);
    } else {
      RestartedShape(PUNCTUAL, 1, w, t, c);
    }
  }

  lemma {:induction false} PunctualRun(ops: seq<Op>, t: AlertType)
    requires Supported(t)
    ensures var w := RedisAfter(PUNCTUAL, 1, 0, ops); w.now == 0 && ShortLived(w.At(t), 0)
  {
    if ops != [] {
      var front, op := ops[..|ops| - 1], ops[|ops| - 1];
      PunctualRun(front, t);
      var w := RedisAfter(PUNCTUAL, 1, 0, front);
      StepKeepsTime(PUNCTUAL, 1, w, op);
      if op.Sample? && Supported(op.kind) {
        if op.kind == t {
          PunctualCall(w, t, op.condition);
        } else {
          CallsFrame(PUNCTUAL, 1, w, op.kind, op.condition, t);
        }
      }
    }
  }

  /** The condition has expired and the count has not. */
  predicate Orphaned(w: Slots, t: AlertType, count: int) {
    var s := w.At(t);
    && !Live(s.condition, w.now) && Sane(s)
    && Live(s.count, w.now) && HeldCount(s.count) == count && s.count.value.expires == Some(w.now + 1)
  }

  /** A non-empty sample that finds everything expired, and whose second write comes late, orphans its count. */
  lemma LateSampleOrphans(w: Slots, t: AlertType, c: AlertCondition)
    requires Supported(t) && c != "" && ShortLived(w.At(t), w.now)
    ensures var w' := Increment(Late(w.issued), 1, w, t, c).0;
            Orphaned(w', t, 1) && w.issued + 2 < w'.issued
  {
    var env := Late(w.issued);
    assert Read(w.At(t).condition, Times(env, w).0) == "";
    AnswersWhenSane(env, 1, w, t, c);
    RestartedShape(env, 1, w, t, c);
    RestartedCount(w.At(t), c, Times(env, w), 1);
    assert env(w.issued).delay == 1 && env(w.issued + 1).delay == 0 && env(w.issued + 2).delay == 1;
  }

  /** An empty sample reads the missing condition as its own and adds to the orphan. */
  lemma EmptySampleAdds(env: Environment, w: Slots, t: AlertType, count: int)
    requires Supported(t) && Orphaned(w, t, count) && forall j :: w.issued <= j ==> env(j) == Step(0, Done)
    ensures var (w', n) := Increment(env, 1, w, t, "");
            n == Ok(count + 1) && Orphaned(w', t, count + 1)
  {
    forall j | w.issued <= j < w.issued + 4
      ensures env(j) == Step(0, Done)
    {
    }
    var times := Times(env, w);
    CallKeepsTime(env, 1, w, t, "");
    AnswersOnReading(env, w, t);
    MatchedShape(env, 1, w, t, "");
    MatchedCount(w.At(t), times, 1);
  }

  lemma AnswersOnReading(env: Environment, w: Slots, t: AlertType)
    requires Supported(t) && Sane(w.At(t)) && forall j :: w.issued <= j < w.issued + 4 ==> env(j) == Step(0, Done)
    ensures Increment(env, 1, w, t, "").1.Ok?
  {
    assert env(w.issued).fate.Done? && env(w.issued + 1).fate.Done?;
    assert env(w.issued + 2).fate.Done? && env(w.issued + 3).fate.Done?;
  }

  predicate AllEmpty(h: History) {
    forall i :: 0 <= i < |h| ==> h[i] == ""
  }

  /** The last non-empty sample of a type can be served late, so that all empty ones after it count ahead by one. */
  lemma {:induction false} LateRun(ops: seq<Op>, t: AlertType) returns (k: nat)
    requires Supported(t) && !AllEmpty(SamplesOf(ops, t))
    ensures var w := RedisAfter(Late(k), 1, 0, ops);
            Orphaned(w, t, Trailing(SamplesOf(ops, t), "") + 1) && k + 2 < w.issued
  {
    var front, op := ops[..|ops| - 1], ops[|ops| - 1];
    if op.Sample? && op.kind == t && op.condition != "" {
      PunctualRun(front, t);
      var w := RedisAfter(PUNCTUAL, 1, 0, front);
      k := w.issued;
      RunAgrees(PUNCTUAL, Late(k), 1, 0, front);
      LateSampleOrphans(w, t, op.condition);
    } else {
      k := LateRun(front, t);
      StepStaysOrphaned(k, RedisAfter(Late(k), 1, 0, front), t, Trailing(SamplesOf(front, t), "") + 1, op);
      if op.Sample? && op.kind == t {
        TrailingExtends(SamplesOf(front, t), "");
      }
    }
  }

  lemma StepStaysOrphaned(k: nat, w: Slots, t: AlertType, count: int, op: Op)
    requires Supported(t) && Orphaned(w, t, count) && k + 2 < w.issued
    requires op.Sample? && op.kind == t ==> op.condition == ""
    ensures var w' := DoRedis(Late(k), 1, w, op).0;
            Orphaned(w', t, if op.Sample? && op.kind == t then count + 1 else count) && k + 2 < w'.issued
  {
    assert forall j :: w.issued <= j ==> Late(k)(j) == Step(0, Done);
    StepAgrees(Late(k), Late(k), 1, w, op);
    if op.Sample? && op.kind == t {
      EmptySampleAdds(Late(k), w, t, count);
    } else {
      OtherStepKeeps(Late(k), w, t, count, op);
    }
  }

  lemma OtherStepKeeps(env: Environment, w: Slots, t: AlertType, count: int, op: Op)
    requires Supported(t) && Orphaned(w, t, count) && forall j :: w.issued <= j ==> env(j) == Step(0, Done)
    requires !(op.Sample? && op.kind == t)
    ensures Orphaned(DoRedis(env, 1, w, op).0, t, count)
  {
    StepKeepsTime(env, 1, w, op);
    if op.Sample? && Supported(op.kind) {
      CallsFrame(env, 1, w, op.kind, op.condition, t);
    }
  }

  /** The count of one more sample is at least one and at most the run it completes. */
  predicate CountsWithin(env: Environment, ttl: nat, start: int, ops: seq<Op>, t: AlertType, c: AlertCondition) {
    var n := DoRedis(env, ttl, RedisAfter(env, ttl, start, ops), Sample(t, c)).1.count;
    n.Ok? && 1 <= n.value <= Run(SamplesOf(ops, t) + [c])
  }

  /**
   Given samples are never counted ahead of their run, however the answered commands are delayed, exactly when the
   last one is not empty or none of its type before it was other than empty: an empty condition reads like a missing
   key.
   */
  lemma NeverAheadOfRunIff(ops: seq<Op>, t: AlertType, c: AlertCondition)
    requires Supported(t)
    ensures (forall env, ttl, start :: Answered(env) ==> CountsWithin(env, ttl, start, ops, t, c))
       <==> c != "" || AllEmpty(SamplesOf(ops, t))
  {
    if c != "" || AllEmpty(SamplesOf(ops, t)) {
      forall env, ttl, start | Answered(env)
        ensures CountsWithin(env, ttl, start, ops, t, c)
      {
        WithinWhenReadable(env, ttl, start, ops, t, c);
      }
    } else {
      var env := LateCountsAhead(ops, t);
      assert Answered(env) && !CountsWithin(env, 1, 0, ops, t, c);
    }
  }

  lemma WithinWhenReadable(env: Environment, ttl: nat, start: int, ops: seq<Op>, t: AlertType, c: AlertCondition)
    requires Supported(t) && Answered(env) && (c != "" || AllEmpty(SamplesOf(ops, t)))
    ensures CountsWithin(env, ttl, start, ops, t, c)
  {
    ExpiryOnlyUndercounts(env, ttl, start, ops, t, c);
    if c == "" {
      var all := SamplesOf(ops, t) + [c];
      TrailingMeaning(all, c, |all|);
    }
  }

  lemma LateCountsAhead(ops: seq<Op>, t: AlertType) returns (env: Environment)
    requires Supported(t) && !AllEmpty(SamplesOf(ops, t))
    ensures Answered(env) && !CountsWithin(env, 1, 0, ops, t, "")
  {
    var k := LateRun(ops, t);
    env := Late(k);
    EmptySampleAdds(env, RedisAfter(env, 1, 0, ops), t, Trailing(SamplesOf(ops, t), "") + 1);
    TrailingExtends(SamplesOf(ops, t), "");
  }
}
