/** Runs of the Redis store on its own: it refines the in-memory store, and expiry can only lower its counts. */
module RedisRuns {
  import opened Model
  import opened Redis
  import opened RedisStore
  import opened RedisCounts
  import opened InMemory
  import opened RunLength
  import opened FallbackRuns
  import opened OutageCounts

  function DoRedis(env: Environment, ttl: nat, w: Slots, op: Op): (Slots, Outcome) {
    match op
    case Sample(t, c) => var (w', n) := Increment(env, ttl, w, t, c); (w', GotCount(n))
    case Marking(t, a) => var (w', ok) := Mark(env, w, t, a); (w', GotMark(ok))
    case Asking(t) => var (w', r) := Activity(env, w, t); (w', GotActive(r))
  }

  function DoMemory(states: States, op: Op): (States, Outcome) {
    if !Supported(op.kind) then
      (states, match op case Sample(_, _) => GotCount(Err(InvalidType))
                        case Marking(_, _) => GotMark(false)
                        case Asking(_) => GotActive(Err(InvalidType)))
    else match op
    case Sample(t, c) => var states' := Counted(states, t, c); (states', GotCount(Ok(states'[t].count)))
    case Marking(t, a) => (Marked(states, t, a), GotMark(true))
    case Asking(t) => (states, GotActive(Ok(StateAt(states, t).active)))
  }

  function RedisAfter(env: Environment, ttl: nat, start: int, ops: seq<Op>): Slots {
    if ops == [] then NoKeys(start)
    else DoRedis(env, ttl, RedisAfter(env, ttl, start, ops[..|ops| - 1]), ops[|ops| - 1]).0
  }

  function MemoryAfter(ops: seq<Op>): States {
    if ops == [] then map[] else DoMemory(MemoryAfter(ops[..|ops| - 1]), ops[|ops| - 1]).0
  }

  function MarksOf(ops: seq<Op>, t: AlertType): seq<bool> {
    if ops == [] then [] else
    var rest, op := MarksOf(ops[..|ops| - 1], t), ops[|ops| - 1];
    if op.Marking? && op.kind == t then rest + [op.active] else rest
  }

  /** The in-memory store counts the run of all samples, exactly. */
  lemma {:induction false} MemoryIsExact(ops: seq<Op>, t: AlertType)
    requires Supported(t)
    ensures StateAt(MemoryAfter(ops), t) == StateOf(SamplesOf(ops, t), MarksOf(ops, t))
  {
    if ops != [] {
      var front, op := ops[..|ops| - 1], ops[|ops| - 1];
      MemoryIsExact(front, t);
      if op.Sample? && op.kind == t {
        BumpExtends(SamplesOf(front, t), MarksOf(front, t), op.condition);
      }
    }
  }

  /** The keys of a type hold what memory holds. */
  predicate Mirrors(w: Slots, states: States, t: AlertType) {
    Sane(w.At(t)) && Held(w.At(t)) == StateAt(states, t)
  }

  /** A sample of the type finds no key it reads expired. */
  predicate Quiet(env: Environment, w: Slots, op: Op, t: AlertType) {
    op.Sample? && op.kind == t ==> FindsStored(w.At(t), op.condition, Times(env, w))
  }

  predicate QuietRun(env: Environment, ttl: nat, start: int, ops: seq<Op>, t: AlertType) {
    ops != [] ==>
      var front := ops[..|ops| - 1];
      QuietRun(env, ttl, start, front, t) && Quiet(env, RedisAfter(env, ttl, start, front), ops[|ops| - 1], t)
  }

  lemma StepMirrors(env: Environment, ttl: nat, w: Slots, states: States, op: Op, t: AlertType)
    requires Answered(env) && Supported(t) && Mirrors(w, states, t) && Quiet(env, w, op, t)
    ensures op.kind == t ==> DoRedis(env, ttl, w, op).1 == DoMemory(states, op).1
    ensures Mirrors(DoRedis(env, ttl, w, op).0, DoMemory(states, op).0, t)
  {
    if op.Sample? && op.kind == t {
      AnswersWhenSane(env, ttl, w, t, op.condition);
      CountsExactly(env, ttl, w, t, op.condition);
    } else if op.Sample? && Supported(op.kind) {
      CallsFrame(env, ttl, w, op.kind, op.condition, t);
    }
  }

  lemma {:induction false} RunMirrors(env: Environment, ttl: nat, start: int, ops: seq<Op>, t: AlertType)
    requires Answered(env) && Supported(t) && QuietRun(env, ttl, start, ops, t)
    ensures Mirrors(RedisAfter(env, ttl, start, ops), MemoryAfter(ops), t)
  {
    if ops != [] {
      var front := ops[..|ops| - 1];
      RunMirrors(env, ttl, start, front, t);
      StepMirrors(env, ttl, RedisAfter(env, ttl, start, front), MemoryAfter(front), ops[|ops| - 1], t);
    }
  }

  /**
   With no errors, and none of a type's samples meeting an expired key, the Redis store answers every operation on
   the type as the in-memory store does, whatever becomes of the other type's keys.
   */
  lemma RedisRefinesMemory(env: Environment, ttl: nat, start: int, ops: seq<Op>, op: Op)
    requires Answered(env) && QuietRun(env, ttl, start, ops + [op], op.kind)
    ensures DoRedis(env, ttl, RedisAfter(env, ttl, start, ops), op).1 == DoMemory(MemoryAfter(ops), op).1
  {
    assert (ops + [op])[..|ops|] == ops;
    if Supported(op.kind) {
      RunMirrors(env, ttl, start, ops, op.kind);
      StepMirrors(env, ttl, RedisAfter(env, ttl, start, ops), MemoryAfter(ops), op, op.kind);
    }
  }

  lemma {:induction false} RunCoherent(env: Environment, ttl: nat, start: int, ops: seq<Op>, t: AlertType)
    requires Answered(env) && Supported(t)
    ensures var w := RedisAfter(env, ttl, start, ops); Coherent(w.At(t), SamplesOf(ops, t), w.now)
  {
    if ops != [] {
      var front, op := ops[..|ops| - 1], ops[|ops| - 1];
      RunCoherent(env, ttl, start, front, t);
      var w := RedisAfter(env, ttl, start, front);
      if op.Sample? && op.kind == t {
        AnswersWhenSane(env, ttl, w, t, op.condition);
        CountsAtMost(env, ttl, w, t, op.condition, SamplesOf(front, t));
      } else if op.Sample? && Supported(op.kind) {
        CallsFrame(env, ttl, w, op.kind, op.condition, t);
      }
    }
  }

  /** When the first command of the last sample of a type arrived: the latest moment its call can have begun. */
  function Began(env: Environment, ttl: nat, start: int, ops: seq<Op>, t: AlertType): Option<int> {
    if ops == [] then None else
    var front, op := ops[..|ops| - 1], ops[|ops| - 1];
    var w := RedisAfter(env, ttl, start, front);
    if op.Sample? && op.kind == t then Some(w.now + env(w.issued).delay)
    else Began(env, ttl, start, front, t)
  }

  /** Every call for a sample of the type ends less than the expiry after the previous one began. */
  predicate Timely(env: Environment, ttl: nat, start: int, ops: seq<Op>, t: AlertType) {
    ops != [] ==>
      var front, op := ops[..|ops| - 1], ops[|ops| - 1];
      && Timely(env, ttl, start, front, t)
      && (op.Sample? && op.kind == t ==>
            var began := Began(env, ttl, start, front, t);
            began.Some? ==> RedisAfter(env, ttl, start, ops).now < began.value + ttl)
  }

  /** The counted keys last at least the expiry from `began`. */
  predicate Lasts(s: Slot, began: Option<int>, ttl: nat) {
    if began.None? then s.condition.None? && s.count.None? else
    && (s.condition.Some? ==> s.condition.value.expires.Some? && began.value + ttl <= s.condition.value.expires.value)
    && (s.count.Some? ==> s.count.value.expires.Some? && began.value + ttl <= s.count.value.expires.value)
  }

  lemma LastsAfter(env: Environment, ttl: nat, w: Slots, t: AlertType, c: AlertCondition)
    requires Supported(t) && Increment(env, ttl, w, t, c).1.Ok?
    requires Outlives(w.At(t), Increment(env, ttl, w, t, c).0.now)
    ensures Lasts(Increment(env, ttl, w, t, c).0.At(t), Some(w.now + env(w.issued).delay), ttl)
  {
    if Read(w.At(t).condition, Times(env, w).0) == c {
      MatchedShape(env, ttl, w, t, c);
    } else {
      RestartedShape(env, ttl, w, t, c);
    }
  }

  lemma LastingOutlives(s: Slot, began: Option<int>, ttl: nat, end: int)
    requires Lasts(s, began, ttl) && (began.Some? ==> end < began.value + ttl)
    ensures Outlives(s, end)
  {
  }

  lemma {:induction false} TimelyIsQuiet(env: Environment, ttl: nat, start: int, ops: seq<Op>, t: AlertType)
    requires Answered(env) && Timely(env, ttl, start, ops, t) && Supported(t)
    ensures QuietRun(env, ttl, start, ops, t)
    ensures Lasts(RedisAfter(env, ttl, start, ops).At(t), Began(env, ttl, start, ops, t), ttl)
  {
    if ops != [] {
      var front, op := ops[..|ops| - 1], ops[|ops| - 1];
      TimelyIsQuiet(env, ttl, start, front, t);
      var w := RedisAfter(env, ttl, start, front);
      if op.Sample? && op.kind == t {
        RunMirrors(env, ttl, start, front, t);
        AnswersWhenSane(env, ttl, w, t, op.condition);
        LastingOutlives(w.At(t), Began(env, ttl, start, front, t), ttl, RedisAfter(env, ttl, start, ops).now);
        OutlivingIsFound(env, ttl, w, t, op.condition);
        LastsAfter(env, ttl, w, t, op.condition);
      } else if op.Sample? && Supported(op.kind) {
        CallsFrame(env, ttl, w, op.kind, op.condition, t);
      }
    }
  }

  /** Expiry only undercounts, and not at all while samples of the type come in time. */
  lemma ExpiryOnlyUndercounts(env: Environment, ttl: nat, start: int, ops: seq<Op>, t: AlertType, c: AlertCondition)
    requires Answered(env) && Supported(t)
    ensures var n := DoRedis(env, ttl, RedisAfter(env, ttl, start, ops), Sample(t, c)).1.count;
            var all := SamplesOf(ops, t) + [c];
            && n.Ok? && 1 <= n.value <= |all| && (c != "" ==> n.value <= Run(all))
            && (Timely(env, ttl, start, ops + [Sample(t, c)], t) ==> n.value == Run(all))
  {
    var w, all := RedisAfter(env, ttl, start, ops), ops + [Sample(t, c)];
    assert all[..|ops|] == ops;
    RunCoherent(env, ttl, start, ops, t);
    AnswersWhenSane(env, ttl, w, t, c);
    CountsAtMost(env, ttl, w, t, c, SamplesOf(ops, t));
    if Timely(env, ttl, start, all, t) {
      TimelyIsQuiet(env, ttl, start, all, t);
      RedisRefinesMemory(env, ttl, start, ops, Sample(t, c));
      MemoryIsExact(ops, t);
      BumpExtends(SamplesOf(ops, t), MarksOf(ops, t), c);
    }
  }
}
