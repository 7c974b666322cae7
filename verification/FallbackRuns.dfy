/** Runs of the fallback store: which samples each backend served, and what the counts returned mean. */
module FallbackRuns {
  import opened Model
  import opened Redis
  import opened RedisStore
  import opened RedisCounts
  import opened InMemory
  import opened RunLength
  import opened Fallback
  import Decimal

  datatype Op = Sample(kind: AlertType, condition: AlertCondition) | Marking(kind: AlertType, active: bool)
              | Asking(kind: AlertType)

  datatype Outcome = GotCount(count: Result<int>) | GotMark(ok: bool) | GotActive(active: Result<bool>)

  function Do(env: Environment, ttl: nat, p: Pair, op: Op): (Pair, Outcome) {
    match op
    case Sample(t, c) => var (q, n) := CountSample(env, ttl, p, t, c); (q, GotCount(n))
    case Marking(t, a) => var (q, ok) := MarkActive(env, ttl, p, t, a); (q, GotMark(ok))
    case Asking(t) => var (q, r) := QueryActive(env, p, t); (q, GotActive(r))
  }

  /** The store after a run from empty backends. */
  function After(env: Environment, ttl: nat, start: int, ops: seq<Op>): Pair {
    if ops == [] then Fresh(start)
    else Do(env, ttl, After(env, ttl, start, ops[..|ops| - 1]), ops[|ops| - 1]).0
  }

  function Response(env: Environment, ttl: nat, start: int, ops: seq<Op>, op: Op): Outcome {
    Do(env, ttl, After(env, ttl, start, ops), op).1
  }

  /** What happened to one type: its samples with the backend that served each, and the completed resyncs. */
  datatype Event = ByRedis(condition: AlertCondition) | ByMemory(condition: AlertCondition) | Resynced

  datatype Trace = Trace(events: seq<Event>, memoryMarks: seq<bool>, redisMarks: seq<bool>)

  function Samples(es: seq<Event>): History {
    if es == [] then [] else
    var rest, e := Samples(es[..|es| - 1]), es[|es| - 1];
    if e.Resynced? then rest else rest + [e.condition]
  }

  function ServedByMemory(es: seq<Event>): History {
    if es == [] then [] else
    var rest, e := ServedByMemory(es[..|es| - 1]), es[|es| - 1];
    if e.ByMemory? then rest + [e.condition] else rest
  }

  /** The samples served by Redis since the last completed resync. */
  function ServedByRedis(es: seq<Event>): History {
    if es == [] then [] else
    match es[|es| - 1]
    case ByRedis(c) => ServedByRedis(es[..|es| - 1]) + [c]
    case ByMemory(_) => ServedByRedis(es[..|es| - 1])
    case Resynced => []
  }

  function Spliced(es: seq<Event>): History {
    ServedByMemory(es) + ServedByRedis(es)
  }

  /** The history the backend that served the last sample has seen. */
  function Seen(es: seq<Event>): History {
    if es != [] && es[|es| - 1].ByMemory? then ServedByMemory(es) else Spliced(es)
  }

  function NoteRecovery(tr: Trace, before: Pair, recovered: Pair): Trace {
    if before.failed && !recovered.failed then Trace(tr.events + [Resynced], tr.memoryMarks, []) else tr
  }

  function NoteService(tr: Trace, t: AlertType, op: Op, after: Pair): Trace {
    if op.kind != t then tr else
    match op
    case Sample(_, c) => tr.(events := tr.events + [if after.failed then ByMemory(c) else ByRedis(c)])
    case Marking(_, a) =>
      if after.failed then tr.(memoryMarks := tr.memoryMarks + [a]) else tr.(redisMarks := tr.redisMarks + [a])
    case Asking(_) => tr
  }

  function Note(env: Environment, ttl: nat, tr: Trace, t: AlertType, p: Pair, op: Op): Trace {
    var recovered := if op.Asking? then p else Recover(env, ttl, p);
    NoteService(NoteRecovery(tr, p, recovered), t, op, Do(env, ttl, p, op).0)
  }

  function TraceOf(env: Environment, ttl: nat, start: int, ops: seq<Op>, t: AlertType): Trace {
    if ops == [] then Trace([], [], []) else
    var front := ops[..|ops| - 1];
    Note(env, ttl, TraceOf(env, ttl, start, front, t), t, After(env, ttl, start, front), ops[|ops| - 1])
  }

  /** Memory holds exactly what it served; a trusted Redis holds no more than the spliced history. */
  predicate Faithful(p: Pair, t: AlertType, tr: Trace) {
    && StateAt(p.memory, t) == StateOf(ServedByMemory(tr.events), tr.memoryMarks)
    && (!p.failed ==>
          && Sane(p.redis.At(t))
          && Held(p.redis.At(t)).active == LastMark(tr.memoryMarks + tr.redisMarks))
  }

  predicate Bounded(p: Pair, t: AlertType, tr: Trace) {
    !p.failed ==> Coherent(p.redis.At(t), Spliced(tr.events), p.redis.now)
  }

  predicate Exact(p: Pair, t: AlertType, tr: Trace) {
    !p.failed ==> Held(p.redis.At(t)) == StateOf(Spliced(tr.events), tr.memoryMarks + tr.redisMarks)
  }

  lemma EventsGrow(es: seq<Event>, e: Event)
    ensures Samples(es + [e]) == if e.Resynced? then Samples(es) else Samples(es) + [e.condition]
    ensures ServedByMemory(es + [e]) == if e.ByMemory? then ServedByMemory(es) + [e.condition] else ServedByMemory(es)
    ensures ServedByRedis(es + [e]) == if e.Resynced? then [] else if e.ByRedis? then ServedByRedis(es) + [e.condition]
                                       else ServedByRedis(es)
    ensures e.ByRedis? ==> Spliced(es + [e]) == Spliced(es) + [e.condition]
    ensures e.Resynced? ==> Spliced(es + [e]) == ServedByMemory(es)
  {
    assert (es + [e])[..|es|] == es;
  }

  /** A completed resync makes Redis hold memory's state of both types, whatever it held before. */
  lemma ResyncCopies(env: Environment, ttl: nat, p: Pair, t: AlertType)
    returns (written: int)
    requires Supported(t) && Resync(env, ttl, p).1
    ensures var w := Resync(env, ttl, p).0;
            && p.redis.now <= written <= w.now
            && w.At(t) == Image(StateAt(p.memory, t), written, ttl)
            && Held(w.At(t)) == StateAt(p.memory, t)
  {
    var w1 := Overwrite(env, ttl, p.redis, HighMem, StateAt(p.memory, HighMem)).0;
    var w := Resync(env, ttl, p).0;
    written := if t == HighMem then w1.now else w.now;
    ImageHolds(StateAt(p.memory, t), written, ttl);
  }

  /**
   The cells of a type after a completed resync: memory's condition and count, each expiring `ttl` after the type's
   script ran, and its activity, which does not expire. Memory's script runs first.
   */
  lemma ResyncWrites(env: Environment, ttl: nat, p: Pair, t: AlertType)
    requires Supported(t) && Resync(env, ttl, p).1
    ensures var n := p.redis.issued;
            var first := p.redis.now + env(n).delay;
            var written := if t.HighMem? then first else first + env(n + 1).delay;
            var s, cells := StateAt(p.memory, t), Resync(env, ttl, p).0.At(t);
            && cells.condition == Some(Entry(s.condition, Some(written + ttl)))
            && cells.count.Some? && cells.count.value.expires == Some(written + ttl)
            && Decimal.ParseInt(cells.count.value.text) == Some(s.count)
            && cells.active == Some(Entry(if s.active then "1" else "0", None))
  {
    Decimal.IntRoundTrip(StateAt(p.memory, t).count);
  }

  lemma RecoveryKeeps(env: Environment, ttl: nat, p: Pair, t: AlertType, tr: Trace)
    requires Supported(t) && Faithful(p, t, tr)
    ensures var q := Recover(env, ttl, p);
            var tr' := NoteRecovery(tr, p, q);
            && Faithful(q, t, tr')
            && q.memory == p.memory && p.redis.now <= q.redis.now
            && (Bounded(p, t, tr) ==> Bounded(q, t, tr'))
            && (Exact(p, t, tr) ==> Exact(q, t, tr'))
            && (p.failed && !q.failed ==> Outlives(q.redis.At(t), p.redis.now + ttl - 1))
  {
    var q := Recover(env, ttl, p);
    if p.failed && !q.failed {
      EventsGrow(tr.events, Resynced);
      var written := ResyncCopies(env, ttl, p, t);
      var h, marks := ServedByMemory(tr.events), tr.memoryMarks;
      assert marks + [] == marks;
      ImageHolds(StateOf(h, marks), written, ttl);
      ImageCoherent(h, marks, written, ttl);
    }
  }

  lemma CountElsewhere(env: Environment, ttl: nat, q: Pair, t: AlertType, tr: Trace, k: AlertType, c: AlertCondition)
    requires Supported(t) && Faithful(q, t, tr) && k != t
    ensures var p' := CountOn(env, ttl, q, k, c).0;
            && Faithful(p', t, tr)
            && (Bounded(q, t, tr) ==> Bounded(p', t, tr))
            && (Exact(q, t, tr) ==> Exact(p', t, tr))
  {
    var p' := CountOn(env, ttl, q, k, c).0;
    if !p'.failed {
      assert p'.redis == Increment(env, ttl, q.redis, k, c).0;
      CallsFrame(env, ttl, q.redis, k, c, t);
    }
  }

  lemma CountByMemory(env: Environment, ttl: nat, q: Pair, t: AlertType, tr: Trace, c: AlertCondition)
    requires Supported(t) && Faithful(q, t, tr) && CountOn(env, ttl, q, t, c).0.failed
    ensures var (p', n) := CountOn(env, ttl, q, t, c);
            var tr' := tr.(events := tr.events + [ByMemory(c)]);
            Faithful(p', t, tr') && n == Ok(Run(ServedByMemory(tr'.events)))
  {
    EventsGrow(tr.events, ByMemory(c));
    BumpExtends(ServedByMemory(tr.events), tr.memoryMarks, c);
    assert CountOn(env, ttl, q, t, c).0.memory == Counted(q.memory, t, c);
  }

  lemma CountByRedis(env: Environment, ttl: nat, q: Pair, t: AlertType, tr: Trace, c: AlertCondition)
    requires Supported(t) && Faithful(q, t, tr) && !CountOn(env, ttl, q, t, c).0.failed
    ensures var (p', n) := CountOn(env, ttl, q, t, c);
            var tr' := tr.(events := tr.events + [ByRedis(c)]);
            && Faithful(p', t, tr') && n.Ok?
            && (Bounded(q, t, tr) ==>
                  Bounded(p', t, tr') && 1 <= n.value && (c != "" ==> n.value <= Run(Spliced(tr'.events))))
            && (Exact(q, t, tr) && FindsStored(q.redis.At(t), c, Times(env, q.redis)) ==>
                  Exact(p', t, tr') && n.value == Run(Spliced(tr'.events)))
  {
    var (w, n) := Increment(env, ttl, q.redis, t, c);
    assert CountOn(env, ttl, q, t, c) == (q.(redis := w), n) && n.Ok?;
    EventsGrow(tr.events, ByRedis(c));
    BumpExtends(Spliced(tr.events), tr.memoryMarks + tr.redisMarks, c);
    CallsFrame(env, ttl, q.redis, t, c, t);
    SaneAfter(env, ttl, q.redis, t, c);
    if Bounded(q, t, tr) {
      CountsAtMost(env, ttl, q.redis, t, c, Spliced(tr.events));
    }
    if FindsStored(q.redis.At(t), c, Times(env, q.redis)) {
      CountsExactly(env, ttl, q.redis, t, c);
    }
  }

  lemma CountKeeps(env: Environment, ttl: nat, q: Pair, t: AlertType, tr: Trace, k: AlertType, c: AlertCondition)
    requires Supported(t) && Faithful(q, t, tr)
    ensures var (p', n) := CountOn(env, ttl, q, k, c);
            var tr' := NoteService(tr, t, Sample(k, c), p');
            && Faithful(p', t, tr')
            && (k == t ==> n.Ok? && (p'.failed ==> n.value == Run(ServedByMemory(tr'.events))))
            && (Bounded(q, t, tr) ==>
                  && Bounded(p', t, tr')
                  && (k == t && !p'.failed ==> 1 <= n.value && (c != "" ==> n.value <= Run(Spliced(tr'.events)))))
            && (Exact(q, t, tr)
                && (k == t && !p'.failed ==> FindsStored(q.redis.At(t), c, Times(env, q.redis))) ==>
                  Exact(p', t, tr') && (k == t && !p'.failed ==> n.value == Run(Spliced(tr'.events))))
  {
    if k != t {
      CountElsewhere(env, ttl, q, t, tr, k, c);
    } else if CountOn(env, ttl, q, k, c).0.failed {
      CountByMemory(env, ttl, q, t, tr, c);
    } else {
      CountByRedis(env, ttl, q, t, tr, c);
    }
  }

  lemma MarkElsewhere(env: Environment, q: Pair, t: AlertType, tr: Trace, k: AlertType, active: bool)
    requires Supported(t) && Faithful(q, t, tr) && k != t
    ensures var p' := MarkOn(env, q, k, active).0;
            && Faithful(p', t, tr)
            && (Bounded(q, t, tr) ==> Bounded(p', t, tr))
            && (Exact(q, t, tr) ==> Exact(p', t, tr))
  {
  }

  lemma MarkByMemory(env: Environment, q: Pair, t: AlertType, tr: Trace, active: bool)
    requires Supported(t) && Faithful(q, t, tr) && MarkOn(env, q, t, active).0.failed
    ensures Faithful(MarkOn(env, q, t, active).0, t, tr.(memoryMarks := tr.memoryMarks + [active]))
  {
    assert MarkOn(env, q, t, active).0.memory == Marked(q.memory, t, active);
    LastOfMarks(tr.memoryMarks, [], active);
  }

  lemma MarkByRedis(env: Environment, q: Pair, t: AlertType, tr: Trace, active: bool)
    requires Supported(t) && Faithful(q, t, tr) && !MarkOn(env, q, t, active).0.failed
    ensures var p' := MarkOn(env, q, t, active).0;
            var tr' := tr.(redisMarks := tr.redisMarks + [active]);
            && Faithful(p', t, tr')
            && (Bounded(q, t, tr) ==> Bounded(p', t, tr'))
            && (Exact(q, t, tr) ==> Exact(p', t, tr'))
  {
    assert MarkOn(env, q, t, active).0 == q.(redis := Mark(env, q.redis, t, active).0);
    LastOfMarks(tr.memoryMarks, tr.redisMarks, active);
  }

  lemma LastOfMarks(before: seq<bool>, marks: seq<bool>, active: bool)
    ensures LastMark(before + (marks + [active])) == LastMark(before + [active]) == active
  {
    assert (before + (marks + [active]))[|before| + |marks|] == active;
  }

  lemma MarkKeeps(env: Environment, ttl: nat, q: Pair, t: AlertType, tr: Trace, k: AlertType, active: bool)
    requires Supported(t) && Faithful(q, t, tr)
    ensures var p' := MarkOn(env, q, k, active).0;
            var tr' := NoteService(tr, t, Marking(k, active), p');
            && Faithful(p', t, tr') && q.redis.now <= p'.redis.now
            && (Bounded(q, t, tr) ==> Bounded(p', t, tr'))
            && (Exact(q, t, tr) ==> Exact(p', t, tr'))
  {
    if k == t && MarkOn(env, q, k, active).0.failed {
      MarkByMemory(env, q, t, tr, active);
    } else if k == t {
      MarkByRedis(env, q, t, tr, active);
    } else {
      MarkElsewhere(env, q, t, tr, k, active);
    }
  }

  /** If the operation is a sample of the type that Redis serves, it finds what is stored, after any recovery. */
  predicate Prompt(env: Environment, ttl: nat, p: Pair, op: Op, t: AlertType) {
    var w := Recover(env, ttl, p).redis;
    op.Sample? && op.kind == t && !Do(env, ttl, p, op).0.failed ==> FindsStored(w.At(t), op.condition, Times(env, w))
  }

  lemma SampleKeeps(env: Environment, ttl: nat, p: Pair, t: AlertType, tr: Trace, k: AlertType, c: AlertCondition)
    requires Supported(t) && Faithful(p, t, tr)
    ensures var (p', n) := CountSample(env, ttl, p, k, c);
            var tr' := Note(env, ttl, tr, t, p, Sample(k, c));
            && Faithful(p', t, tr') && p.redis.now <= p'.redis.now
            && (k == t ==> n.Ok? && Latest(Seen(tr'.events)) == c)
            && (Bounded(p, t, tr) ==>
                  && Bounded(p', t, tr')
                  && (k == t ==> 1 <= n.value && (c != "" ==> n.value <= Run(Seen(tr'.events)))))
            && (Exact(p, t, tr) && Prompt(env, ttl, p, Sample(k, c), t) ==>
                  Exact(p', t, tr') && (k == t ==> n.value == Run(Seen(tr'.events))))
  {
    var q := Recover(env, ttl, p);
    var tr' := NoteRecovery(tr, p, q);
    var p' := CountOn(env, ttl, q, k, c).0;
    assert Note(env, ttl, tr, t, p, Sample(k, c)) == NoteService(tr', t, Sample(k, c), p');
    assert CountSample(env, ttl, p, k, c) == CountOn(env, ttl, q, k, c);
    RecoveryKeeps(env, ttl, p, t, tr);
    CountKeeps(env, ttl, q, t, tr', k, c);
    TimeMoves(env, ttl, q, k, c);
    if k == t {
      SeenWhenServed(tr', t, c, p');
    }
  }

  lemma SeenWhenServed(tr: Trace, t: AlertType, c: AlertCondition, p': Pair)
    ensures var es := NoteService(tr, t, Sample(t, c), p').events;
            && Seen(es) == (if p'.failed then ServedByMemory(es) else Spliced(es))
            && Latest(Seen(es)) == c && 1 <= Run(Seen(es))
  {
    EventsGrow(tr.events, if p'.failed then ByMemory(c) else ByRedis(c));
  }

  lemma TimeMoves(env: Environment, ttl: nat, q: Pair, k: AlertType, c: AlertCondition)
    ensures q.redis.now <= CountOn(env, ttl, q, k, c).0.redis.now
  {
    if Supported(k) {
      CallsFrame(env, ttl, q.redis, k, c, k);
    }
  }

  lemma MarkingKeeps(env: Environment, ttl: nat, p: Pair, t: AlertType, tr: Trace, k: AlertType, active: bool)
    requires Supported(t) && Faithful(p, t, tr)
    ensures var p' := MarkActive(env, ttl, p, k, active).0;
            var tr' := Note(env, ttl, tr, t, p, Marking(k, active));
            && Faithful(p', t, tr') && p.redis.now <= p'.redis.now
            && (Bounded(p, t, tr) ==> Bounded(p', t, tr'))
            && (Exact(p, t, tr) ==> Exact(p', t, tr'))
  {
    RecoveryKeeps(env, ttl, p, t, tr);
    var q := Recover(env, ttl, p);
    var tr' := NoteRecovery(tr, p, q);
    MarkKeeps(env, ttl, q, t, tr', k, active);
    var p' := MarkOn(env, q, k, active).0;
    assert Note(env, ttl, tr, t, p, Marking(k, active)) == NoteService(tr', t, Marking(k, active), p');
  }

  lemma AskingKeeps(env: Environment, ttl: nat, p: Pair, t: AlertType, tr: Trace, k: AlertType)
    requires Supported(t) && Faithful(p, t, tr)
    ensures var p' := QueryActive(env, p, k).0;
            var tr' := Note(env, ttl, tr, t, p, Asking(k));
            && Faithful(p', t, tr') && p.redis.now <= p'.redis.now
            && (Bounded(p, t, tr) ==> Bounded(p', t, tr'))
            && (Exact(p, t, tr) ==> Exact(p', t, tr'))
  {
    var p' := QueryActive(env, p, k).0;
    assert p'.redis.At(t) == p.redis.At(t);
  }

  /** Every operation, under any schedule, keeps what the store holds tied to the trace. */
  lemma StepKeeps(env: Environment, ttl: nat, p: Pair, t: AlertType, tr: Trace, op: Op)
    requires Supported(t) && Faithful(p, t, tr)
    ensures var p' := Do(env, ttl, p, op).0;
            var tr' := Note(env, ttl, tr, t, p, op);
            && Faithful(p', t, tr')
            && p.redis.now <= p'.redis.now
            && (Bounded(p, t, tr) ==> Bounded(p', t, tr'))
            && (Exact(p, t, tr) && Prompt(env, ttl, p, op, t) ==> Exact(p', t, tr'))
  {
    match op
    case Sample(k, c) => SampleKeeps(env, ttl, p, t, tr, k, c);
    case Marking(k, active) => MarkingKeeps(env, ttl, p, t, tr, k, active);
    case Asking(k) => AskingKeeps(env, ttl, p, t, tr, k);
  }

  /** No sample of the type, in a whole run, finds a key it reads expired. */
  predicate PromptRun(env: Environment, ttl: nat, start: int, ops: seq<Op>, t: AlertType) {
    ops != [] ==>
      var front := ops[..|ops| - 1];
      PromptRun(env, ttl, start, front, t) && Prompt(env, ttl, After(env, ttl, start, front), ops[|ops| - 1], t)
  }

  lemma {:induction false} RunKeeps(env: Environment, ttl: nat, start: int, ops: seq<Op>, t: AlertType)
    requires Supported(t)
    ensures var p, tr := After(env, ttl, start, ops), TraceOf(env, ttl, start, ops, t);
            && Faithful(p, t, tr) && Bounded(p, t, tr)
            && (PromptRun(env, ttl, start, ops, t) ==> Exact(p, t, tr))
  {
    if ops != [] {
      var front := ops[..|ops| - 1];
      RunKeeps(env, ttl, start, front, t);
      StepKeeps(env, ttl, After(env, ttl, start, front), t, TraceOf(env, ttl, start, front, t), ops[|ops| - 1]);
    }
  }

  /**
   Splice refinement: every count returned is the run of the history the serving backend has seen. Expiry can
   only lower it, and without expiry it is exact. No schedule of Redis failures inside any command changes this.
   */
  lemma CountIsSplicedRun(env: Environment, ttl: nat, start: int, ops: seq<Op>, t: AlertType, c: AlertCondition)
    requires Supported(t)
    ensures var r := Response(env, ttl, start, ops, Sample(t, c));
            var seen := Seen(TraceOf(env, ttl, start, ops + [Sample(t, c)], t).events);
            && r.count.Ok? && Latest(seen) == c
            && 1 <= r.count.value && (c != "" ==> r.count.value <= Run(seen))
            && (PromptRun(env, ttl, start, ops + [Sample(t, c)], t) ==> r.count.value == Run(seen))
  {
    var op := Sample(t, c);
    assert (ops + [op])[..|ops|] == ops;
    RunKeeps(env, ttl, start, ops, t);
    SampleKeeps(env, ttl, After(env, ttl, start, ops), t, TraceOf(env, ttl, start, ops, t), t, c);
  }
}
