/** Runs of the whole pipeline: samples through the fallback store into the alerts table. */
module AlertRuns {
  import opened Model
  import opened Redis
  import opened RedisCounts
  import opened RunLength
  import opened Fallback
  import opened FallbackRuns
  import opened OutageCounts
  import opened Storage
  import opened Monitor
  import opened LedgerRuns

  datatype Input = Input(metrics: Metrics, clocks: Clocks)

  // A run: the outside world, the expiry of counted keys, the limits, the starting time and ledger.
  datatype Setting = Setting(out: Outside, ttl: nat, lim: Limits, start: int, ledger: Ledger)

  ghost function PipelineAfter(s: Setting, inputs: seq<Input>): (Pair, Ledger) {
    if inputs == [] then (Fresh(s.start), s.ledger) else
    var (p, l) := PipelineAfter(s, inputs[..|inputs| - 1]);
    var x := inputs[|inputs| - 1];
    var (q, l', _) := Cycle(s.out, s.ttl, s.lim, p, l, x.metrics, x.clocks);
    (q, l')
  }

  function Sampled(m: Metrics, kind: AlertType): AlertCondition {
    if kind.HighCPU? then ConditionOf(m.cpu, HIGH_CPU_THRESHOLD) else ConditionOf(m.memUsage, HIGH_MEM_THRESHOLD)
  }

  function CycleOps(m: Metrics): seq<Op> {
    [Sample(HighCPU, Sampled(m, HighCPU)), Sample(HighMem, Sampled(m, HighMem))]
  }

  /** The operations a run has made on the store: none in a cycle whose measurement was not saved. */
  ghost function OpsAfter(s: Setting, inputs: seq<Input>): seq<Op> {
    if inputs == [] then [] else
    var front := inputs[..|inputs| - 1];
    var counted := s.out.repository(PipelineAfter(s, front).1.issued).Done?;
    OpsAfter(s, front) + if counted then CycleOps(inputs[|inputs| - 1].metrics) else []
  }

  /** The samples of a type that reached the store. */
  ghost function HistoryAfter(s: Setting, inputs: seq<Input>, kind: AlertType): History {
    SamplesOf(OpsAfter(s, inputs), kind)
  }

  lemma OpsExtend(env: Environment, ttl: nat, start: int, ops: seq<Op>, a: Op, b: Op, t: AlertType)
    ensures var two := ops + [a, b];
            && After(env, ttl, start, two) == Do(env, ttl, After(env, ttl, start, ops + [a]), b).0
            && After(env, ttl, start, ops + [a]) == Do(env, ttl, After(env, ttl, start, ops), a).0
            && Outages(env, ttl, start, ops) <= Outages(env, ttl, start, ops + [a]) <= Outages(env, ttl, start, two)
            && SamplesOf(ops + [a], t) == SamplesOf(ops, t) + (if a.Sample? && a.kind == t then [a.condition] else [])
            && SamplesOf(two, t) == SamplesOf(ops + [a], t) + (if b.Sample? && b.kind == t then [b.condition] else [])
            && (PromptRun(env, ttl, start, two, t) ==> PromptRun(env, ttl, start, ops + [a], t))
            && (PromptRun(env, ttl, start, ops + [a], t) ==> PromptRun(env, ttl, start, ops, t))
  {
    var two := ops + [a, b];
    assert two[..|ops| + 1] == ops + [a] && (ops + [a])[..|ops|] == ops && two[|ops| + 1] == b;
  }

  /** One cycle is two operations, and its counts are their answers. */
  lemma CycleIsTwoOps(s: Setting, ops: seq<Op>, m: Metrics)
    ensures var p := After(s.out.redis, s.ttl, s.start, ops);
            var both := CycleOps(m);
            var (q, r) := Updated(s.out.redis, s.ttl, p, m);
            && q == After(s.out.redis, s.ttl, s.start, ops + both)
            && r.Ok?
            && r.value == AlertUpdate(
                 Response(s.out.redis, s.ttl, s.start, ops, both[0]).count.value, both[0].condition,
                 Response(s.out.redis, s.ttl, s.start, ops + [both[0]], both[1]).count.value, both[1].condition)
  {
    var both := CycleOps(m);
    OpsExtend(s.out.redis, s.ttl, s.start, ops, both[0], both[1], HighCPU);
    assert ops + both == ops + [both[0], both[1]];
    CountIsSplicedRun(s.out.redis, s.ttl, s.start, ops, HighCPU, both[0].condition);
    CountIsSplicedRun(s.out.redis, s.ttl, s.start, ops + [both[0]], HighMem, both[1].condition);
  }

  function StoreAfter(s: Setting, ops: seq<Op>): Pair {
    After(s.out.redis, s.ttl, s.start, ops)
  }

  lemma UnbrokenExtend(env: Environment, ttl: nat, start: int, ops: seq<Op>, a: Op, b: Op, t: AlertType)
    requires Supported(t) && Unbroken(env, ttl, start, ops + [a, b], t)
    ensures Unbroken(env, ttl, start, ops + [a], t) && Unbroken(env, ttl, start, ops, t)
  {
    assert ops + [a, b] == ops + [a] + [b];
    UnbrokenBefore(env, ttl, start, ops + [a], b, t);
    UnbrokenBefore(env, ttl, start, ops, a, t);
  }

  /** Redis served a type, then memory, then Redis again, and no resync came after that. */
  ghost predicate UnbrokenAfter(s: Setting, inputs: seq<Input>, kind: AlertType) {
    Unbroken(s.out.redis, s.ttl, s.start, OpsAfter(s, inputs), kind)
  }

  /** A run through at most one outage of the store is one such. */
  lemma OneOutageLeavesUnbroken(s: Setting, inputs: seq<Input>, kind: AlertType)
    requires Supported(kind) && OutagesAfter(s, inputs) <= 1
    ensures UnbrokenAfter(s, inputs, kind)
  {
    OneOutageIsUnbroken(s.out.redis, s.ttl, s.start, OpsAfter(s, inputs), kind);
  }

  ghost function OutagesAfter(s: Setting, inputs: seq<Input>): nat {
    Outages(s.out.redis, s.ttl, s.start, OpsAfter(s, inputs))
  }

  ghost predicate PromptAfter(s: Setting, inputs: seq<Input>, kind: AlertType) {
    PromptRun(s.out.redis, s.ttl, s.start, OpsAfter(s, inputs), kind)
  }

  lemma {:induction false} StoreFollows(s: Setting, inputs: seq<Input>)
    ensures PipelineAfter(s, inputs).0 == StoreAfter(s, OpsAfter(s, inputs))
  {
    if inputs != [] {
      var front, x := inputs[..|inputs| - 1], inputs[|inputs| - 1];
      StoreFollows(s, front);
      CycleIsTwoOps(s, OpsAfter(s, front), x.metrics);
      assert OpsAfter(s, front) + [] == OpsAfter(s, front);
    }
  }

  /**
   The counts one cycle gets for a type: bounded by the run of its samples in an unbroken run, equal before any
   failure.
   */
  lemma CycleCounts(s: Setting, ops: seq<Op>, m: Metrics, kind: AlertType)
    requires Supported(kind)
    ensures var all := ops + CycleOps(m);
            var u := Updated(s.out.redis, s.ttl, StoreAfter(s, ops), m).1;
            var h := SamplesOf(all, kind);
            && u.Ok? && ConditionIn(u.value, kind) == Sampled(m, kind)
            && h == SamplesOf(ops, kind) + [Sampled(m, kind)]
            && CountOf(u.value, kind) <= |h|
            && (Unbroken(s.out.redis, s.ttl, s.start, all, kind) ==> 1 <= CountOf(u.value, kind) <= Run(h))
            && (Outages(s.out.redis, s.ttl, s.start, all) == 0 && PromptRun(s.out.redis, s.ttl, s.start, all, kind) ==>
                  CountOf(u.value, kind) == Run(h))
  {
    var env, both := s.out.redis, CycleOps(m);
    CycleIsTwoOps(s, ops, m);
    OpsExtend(env, s.ttl, s.start, ops, both[0], both[1], kind);
    assert ops + both == ops + [both[0], both[1]] == (ops + [both[0]]) + [both[1]];
    assert |CONDITION_HIGH| > 0 && |CONDITION_NORMAL| > 0;
    var before := if kind.HighCPU? then ops else ops + [both[0]];
    CountAtMostSamples(env, s.ttl, s.start, before, kind, Sampled(m, kind));
    if Unbroken(env, s.ttl, s.start, ops + both, kind) {
      UnbrokenExtend(env, s.ttl, s.start, ops, both[0], both[1], kind);
      NoPrematureCount(env, s.ttl, s.start, before, kind, Sampled(m, kind));
    }
    if Outages(env, s.ttl, s.start, ops + both) == 0 && PromptRun(env, s.ttl, s.start, ops + both, kind) {
      CountBeforeFailure(env, s.ttl, s.start, before, kind, Sampled(m, kind));
    }
  }

  /** What the last cycle of a run did to one type. */
  lemma LastCycle(s: Setting, inputs: seq<Input>, kind: AlertType)
    requires inputs != [] && Supported(kind)
    requires ValidLedger(PipelineAfter(s, inputs[..|inputs| - 1]).1)
    ensures var front, m := inputs[..|inputs| - 1], inputs[|inputs| - 1].metrics;
            var l, l' := PipelineAfter(s, front).1, PipelineAfter(s, inputs).1;
            var h, h' := HistoryAfter(s, front, kind), HistoryAfter(s, inputs, kind);
            var counted := s.out.repository(l.issued).Done?;
            var u := Updated(s.out.redis, s.ttl, PipelineAfter(s, front).0, m).1;
            && ValidLedger(l') && u.Ok?
            && h' == (if counted then h + [Sampled(m, kind)] else h)
            && ConditionIn(u.value, kind) == Sampled(m, kind)
            && (counted ==> CountOf(u.value, kind) <= |h'|)
            && OutagesAfter(s, front) <= OutagesAfter(s, inputs)
            && (counted && UnbrokenAfter(s, inputs, kind) ==> 1 <= CountOf(u.value, kind) <= Run(h'))
            && (counted && OutagesAfter(s, inputs) == 0 && PromptAfter(s, inputs, kind) ==>
                  CountOf(u.value, kind) == Run(h'))
            && (HasOpen(l', kind) != HasOpen(l, kind) ==>
                  && counted
                  && if HasOpen(l', kind) then RaisesAlert(s.lim, u.value, kind) else ClearsAlert(s.lim, u.value, kind))
  {
    var front, x := inputs[..|inputs| - 1], inputs[|inputs| - 1];
    StoreFollows(s, front);
    var (p, l) := PipelineAfter(s, front);
    var ops := OpsAfter(s, front);
    CycleCounts(s, ops, x.metrics, kind);
    CycleIsTwoOps(s, ops, x.metrics);
    var both := CycleOps(x.metrics);
    OpsExtend(s.out.redis, s.ttl, s.start, ops, both[0], both[1], kind);
    assert ops + [] == ops && ops + both == ops + [both[0], both[1]];
    var counted := if s.out.repository(l.issued).Done? then Updated(s.out.redis, s.ttl, p, x.metrics).1
                   else Err(Unavailable);
    BookMoves(s.out, s.lim, l, Booking(x.metrics, counted, x.clocks), kind);
  }

  lemma {:induction false} LedgerStaysValid(s: Setting, inputs: seq<Input>)
    requires ValidLedger(s.ledger)
    ensures ValidLedger(PipelineAfter(s, inputs).1)
  {
    if inputs != [] {
      LedgerStaysValid(s, inputs[..|inputs| - 1]);
      LastCycle(s, inputs, HighCPU);
    }
  }

  ghost predicate OpenAfter(s: Setting, inputs: seq<Input>, kind: AlertType) {
    HasOpen(PipelineAfter(s, inputs).1, kind)
  }

  /**
   In an unbroken run of the store, whatever expires and whatever the repository answers, an alert is created only
   after a full run of high samples of its type, and resolved only after a full run of normal ones.
   */
  lemma TransitionNeedsRun(s: Setting, inputs: seq<Input>, kind: AlertType)
    requires inputs != [] && Supported(kind) && ValidLedger(s.ledger)
    requires UnbrokenAfter(s, inputs, kind)
    requires OpenAfter(s, inputs, kind) != OpenAfter(s, inputs[..|inputs| - 1], kind)
    ensures var h := HistoryAfter(s, inputs, kind);
            && h == HistoryAfter(s, inputs[..|inputs| - 1], kind) + [Sampled(inputs[|inputs| - 1].metrics, kind)]
            && if OpenAfter(s, inputs, kind) then EndsWith(h, s.lim.trigger, CONDITION_HIGH)
               else EndsWith(h, s.lim.resolve, CONDITION_NORMAL)
  {
    var front := inputs[..|inputs| - 1];
    LedgerStaysValid(s, front);
    LastCycle(s, inputs, kind);
    var u := Updated(s.out.redis, s.ttl, PipelineAfter(s, front).0, inputs[|inputs| - 1].metrics).1;
    var h := HistoryAfter(s, inputs, kind);
    TrailingReaches(h, if OpenAfter(s, inputs, kind) then s.lim.trigger else s.lim.resolve, Latest(h));
  }

  /** In any run at all, nothing is opened before as many samples of the type as an alert needs have been counted. */
  lemma {:induction false} NoAlertBeforeTrigger(s: Setting, inputs: seq<Input>, kind: AlertType)
    requires Supported(kind) && ValidLedger(s.ledger) && !HasOpen(s.ledger, kind)
    requires |HistoryAfter(s, inputs, kind)| < s.lim.trigger
    ensures !OpenAfter(s, inputs, kind)
  {
    if inputs != [] {
      LedgerStaysValid(s, inputs[..|inputs| - 1]);
      LastCycle(s, inputs, kind);
      NoAlertBeforeTrigger(s, inputs[..|inputs| - 1], kind);
    }
  }

  /** How many samples of a type had been counted at each opening or closing of its alert. */
  ghost function Flips(s: Setting, inputs: seq<Input>, kind: AlertType): seq<nat> {
    if inputs == [] then [] else
    var front := inputs[..|inputs| - 1];
    Flips(s, front, kind)
      + if OpenAfter(s, inputs, kind) != OpenAfter(s, front, kind) then [|HistoryAfter(s, inputs, kind)|] else []
  }

  predicate Spaced(flips: seq<nat>, gap: nat, end: nat) {
    && (flips != [] ==> gap <= flips[0] && flips[|flips| - 1] <= end)
    && (forall i :: 0 < i < |flips| ==> flips[i - 1] + gap <= flips[i])
  }

  function ConditionFor(open: bool): AlertCondition {
    if open then CONDITION_HIGH else CONDITION_NORMAL
  }

  /** The last flip was made by a sample of the condition the type is now in. */
  predicate FlippedBy(flips: seq<nat>, h: History, open: bool) {
    flips != [] ==> 0 < flips[|flips| - 1] <= |h| && h[flips[|flips| - 1] - 1] == ConditionFor(open)
  }

  /** A new flip needs a run of the other condition, which cannot reach back over the last flip. */
  lemma NextFlip(flips: seq<nat>, gap: nat, h: History, h': History, open: bool, n: nat)
    requires 0 < gap <= n && Spaced(flips, gap, |h|) && FlippedBy(flips, h, open)
    requires |h'| == |h| + 1 && h'[..|h|] == h && EndsWith(h', n, ConditionFor(!open))
    ensures Spaced(flips + [|h'|], gap, |h'|) && FlippedBy(flips + [|h'|], h', !open)
  {
    assert |CONDITION_HIGH| != |CONDITION_NORMAL|;
    if flips != [] {
      var last := flips[|flips| - 1];
      assert h'[last - 1] == h[last - 1];
    }
  }

  lemma OutagesGrow(s: Setting, inputs: seq<Input>, kind: AlertType)
    requires inputs != []
    ensures OutagesAfter(s, inputs[..|inputs| - 1]) <= OutagesAfter(s, inputs)
    ensures PromptAfter(s, inputs, kind) ==> PromptAfter(s, inputs[..|inputs| - 1], kind)
  {
    var front := inputs[..|inputs| - 1];
    var ops, both := OpsAfter(s, front), CycleOps(inputs[|inputs| - 1].metrics);
    OpsExtend(s.out.redis, s.ttl, s.start, ops, both[0], both[1], kind);
    assert ops + [] == ops && ops + both == ops + [both[0], both[1]];
  }

  lemma StaysUnbroken(s: Setting, inputs: seq<Input>, kind: AlertType)
    requires inputs != [] && Supported(kind) && UnbrokenAfter(s, inputs, kind)
    ensures UnbrokenAfter(s, inputs[..|inputs| - 1], kind)
  {
    var ops, both := OpsAfter(s, inputs[..|inputs| - 1]), CycleOps(inputs[|inputs| - 1].metrics);
    assert ops + [] == ops && ops + both == ops + [both[0], both[1]];
    if OpsAfter(s, inputs) != ops {
      UnbrokenExtend(s.out.redis, s.ttl, s.start, ops, both[0], both[1], kind);
    }
  }

  lemma NoFlip(flips: seq<nat>, gap: nat, h: History, h': History, open: bool)
    requires Spaced(flips, gap, |h|) && FlippedBy(flips, h, open)
    requires h <= h'
    ensures Spaced(flips, gap, |h'|) && FlippedBy(flips, h', open)
  {
  }

  function Gap(lim: Limits): nat {
    if lim.trigger < lim.resolve then lim.trigger else lim.resolve
  }

  lemma {:induction false} FlipsSpaced(s: Setting, inputs: seq<Input>, kind: AlertType)
    requires Supported(kind) && ValidLedger(s.ledger) && UnbrokenAfter(s, inputs, kind) && 0 < Gap(s.lim)
    ensures var flips, h := Flips(s, inputs, kind), HistoryAfter(s, inputs, kind);
            Spaced(flips, Gap(s.lim), |h|) && FlippedBy(flips, h, OpenAfter(s, inputs, kind))
  {
    if inputs != [] {
      var front := inputs[..|inputs| - 1];
      StaysUnbroken(s, inputs, kind);
      FlipsSpaced(s, front, kind);
      var flips, h, h' := Flips(s, front, kind), HistoryAfter(s, front, kind), HistoryAfter(s, inputs, kind);
      var open, open' := OpenAfter(s, front, kind), OpenAfter(s, inputs, kind);
      assert Flips(s, inputs, kind) == flips + if open' != open then [|h'|] else [];
      HistoryGrows(s, inputs, kind);
      if open != open' {
        TransitionNeedsRun(s, inputs, kind);
        NextFlip(flips, Gap(s.lim), h, h', open, if open' then s.lim.trigger else s.lim.resolve);
      } else {
        NoFlip(flips, Gap(s.lim), h, h', open);
        assert flips + [] == flips;
      }
    }
  }

  lemma HistoryGrows(s: Setting, inputs: seq<Input>, kind: AlertType)
    requires inputs != [] && Supported(kind) && ValidLedger(s.ledger)
    ensures HistoryAfter(s, inputs[..|inputs| - 1], kind) <= HistoryAfter(s, inputs, kind)
  {
    LedgerStaysValid(s, inputs[..|inputs| - 1]);
    LastCycle(s, inputs, kind);
  }

  lemma OneGapMore(k: nat, gap: nat)
    ensures (k + 1) * gap == k * gap + gap
  {
  }

  lemma {:induction false} SpacedAt(flips: seq<nat>, gap: nat, end: nat, k: nat)
    requires Spaced(flips, gap, end) && k < |flips|
    ensures (k + 1) * gap <= flips[k]
  {
    OneGapMore(k, gap);
    if k > 0 {
      SpacedAt(flips, gap, end, k - 1);
    }
  }

  lemma SpacedBound(flips: seq<nat>, gap: nat, end: nat)
    requires Spaced(flips, gap, end)
    ensures forall k :: 0 <= k < |flips| ==> (k + 1) * gap <= flips[k]
    ensures |flips| * gap <= end
  {
    forall k | 0 <= k < |flips| {
      SpacedAt(flips, gap, end, k);
    }
    if flips != [] {
      SpacedAt(flips, gap, end, |flips| - 1);
    }
  }

  /**
   Anti-flapping: openings and closings of one type are at least three of its samples apart, the k-th comes no
   earlier than sample 3k, and there are at most a third as many as samples.
   */
  lemma NoFlapping(s: Setting, inputs: seq<Input>, kind: AlertType)
    requires Supported(kind) && ValidLedger(s.ledger) && s.lim == LIMITS && UnbrokenAfter(s, inputs, kind)
    ensures var flips, n := Flips(s, inputs, kind), |HistoryAfter(s, inputs, kind)|;
            && (forall i :: 0 < i < |flips| ==> flips[i - 1] + 3 <= flips[i])
            && (forall k :: 0 <= k < |flips| ==> 3 * (k + 1) <= flips[k])
            && 3 * |flips| <= n <= |inputs|
  {
    FlipsSpaced(s, inputs, kind);
    SpacedBound(Flips(s, inputs, kind), 3, |HistoryAfter(s, inputs, kind)|);
    SamplesAtMostInputs(s, inputs, kind);
  }

  lemma {:induction false} SamplesAtMostInputs(s: Setting, inputs: seq<Input>, kind: AlertType)
    requires Supported(kind) && ValidLedger(s.ledger)
    ensures |HistoryAfter(s, inputs, kind)| <= |inputs|
  {
    if inputs != [] {
      SamplesAtMostInputs(s, inputs[..|inputs| - 1], kind);
      LedgerStaysValid(s, inputs[..|inputs| - 1]);
      LastCycle(s, inputs, kind);
    }
  }

  /** The samples of a type in a run, whether or not they were counted. */
  function Readings(inputs: seq<Input>, kind: AlertType): History {
    seq(|inputs|, i requires 0 <= i < |inputs| => Sampled(inputs[i].metrics, kind))
  }

  /** After `i` samples a full run of one condition has just been seen. */
  predicate Window(lim: Limits, h: History, i: nat) {
    0 < i <= |h| && EndsWith(h[..i], if h[i - 1] == CONDITION_HIGH then lim.trigger else lim.resolve, h[i - 1])
  }

  /** The latest full run came after `i` samples, and was high. */
  ghost predicate LatestHigh(lim: Limits, h: History, i: nat) {
    Window(lim, h, i) && h[i - 1] == CONDITION_HIGH && forall j :: i < j <= |h| ==> !Window(lim, h, j)
  }

  /** The latest full run was high, or there was none and the type was open from the start. */
  ghost predicate ShouldBeOpen(lim: Limits, h: History, initially: bool) {
    || (exists i :: LatestHigh(lim, h, i))
    || (initially && forall i :: 0 < i <= |h| ==> !Window(lim, h, i))
  }

  lemma WindowKept(lim: Limits, h: History, c: AlertCondition, i: nat)
    requires i <= |h|
    ensures Window(lim, h + [c], i) <==> Window(lim, h, i)
  {
    assert (h + [c])[..i] == h[..i];
  }

  /** One more sample changes what should be open only if it completes a full run. */
  lemma ShouldBeOpenStep(lim: Limits, h: History, c: AlertCondition, initially: bool)
    requires c == CONDITION_HIGH || c == CONDITION_NORMAL
    ensures ShouldBeOpen(lim, h + [c], initially)
       <==> if Window(lim, h + [c], |h| + 1) then c == CONDITION_HIGH else ShouldBeOpen(lim, h, initially)
  {
    var h' := h + [c];
    if Window(lim, h', |h'|) {
      assert c == CONDITION_HIGH ==> LatestHigh(lim, h', |h'|);
    } else {
      forall i: nat {
        LatestKept(lim, h, c, i);
      }
      NoneKept(lim, h, c);
    }
  }

  lemma LatestKept(lim: Limits, h: History, c: AlertCondition, i: nat)
    requires !Window(lim, h + [c], |h| + 1)
    ensures LatestHigh(lim, h + [c], i) <==> LatestHigh(lim, h, i)
  {
    forall j: nat | j <= |h| {
      WindowKept(lim, h, c, j);
    }
  }

  lemma NoneKept(lim: Limits, h: History, c: AlertCondition)
    requires !Window(lim, h + [c], |h| + 1)
    ensures (forall i :: 0 < i <= |h| + 1 ==> !Window(lim, h + [c], i))
       <==> (forall i :: 0 < i <= |h| ==> !Window(lim, h, i))
  {
    forall j: nat | j <= |h| {
      WindowKept(lim, h, c, j);
    }
  }

  lemma RunMeansWindow(lim: Limits, h: History)
    requires h != []
    ensures Window(lim, h, |h|) <==> Run(h) >= if Latest(h) == CONDITION_HIGH then lim.trigger else lim.resolve
  {
    assert h[..|h|] == h;
    TrailingReaches(h, if Latest(h) == CONDITION_HIGH then lim.trigger else lim.resolve, Latest(h));
  }

  ghost predicate RepositoryAnswers(s: Setting) {
    forall k :: s.out.repository(k).Done?
  }

  /** With every repository call answered, a counted cycle completes and does what its counts ask for. */
  lemma CompletedCycle(s: Setting, inputs: seq<Input>, kind: AlertType)
    requires inputs != [] && Supported(kind) && RepositoryAnswers(s)
    requires ValidLedger(PipelineAfter(s, inputs[..|inputs| - 1]).1)
    ensures var front, m := inputs[..|inputs| - 1], inputs[|inputs| - 1].metrics;
            var (p, l) := PipelineAfter(s, front);
            var r := Updated(s.out.redis, s.ttl, p, m).1;
            r.Ok? ==>
              OpenAfter(s, inputs, kind) <==>
              if RaisesAlert(s.lim, r.value, kind) then true
              else if ClearsAlert(s.lim, r.value, kind) then false else OpenAfter(s, front, kind)
  {
    var front, x := inputs[..|inputs| - 1], inputs[|inputs| - 1];
    var (p, l) := PipelineAfter(s, front);
    var counted := Updated(s.out.redis, s.ttl, p, x.metrics).1;
    if counted.Ok? {
      AnsweredBook(s.out, s.lim, l, Booking(x.metrics, counted, x.clocks), kind);
    }
  }

  lemma HistoryStep(s: Setting, inputs: seq<Input>, kind: AlertType)
    requires inputs != [] && Supported(kind)
    ensures var front := inputs[..|inputs| - 1];
            HistoryAfter(s, inputs, kind)
              == HistoryAfter(s, front, kind)
                 + if s.out.repository(PipelineAfter(s, front).1.issued).Done?
                   then [Sampled(inputs[|inputs| - 1].metrics, kind)] else []
  {
    var ops, both := OpsAfter(s, inputs[..|inputs| - 1]), CycleOps(inputs[|inputs| - 1].metrics);
    OpsExtend(s.out.redis, s.ttl, s.start, ops, both[0], both[1], kind);
    assert ops + [] == ops && ops + both == ops + [both[0], both[1]];
  }

  lemma ReadingsStep(inputs: seq<Input>, kind: AlertType)
    requires inputs != []
    ensures Readings(inputs, kind)
         == Readings(inputs[..|inputs| - 1], kind) + [Sampled(inputs[|inputs| - 1].metrics, kind)]
  {
  }

  lemma {:induction false} AllReadingsCounted(s: Setting, inputs: seq<Input>, kind: AlertType)
    requires Supported(kind) && RepositoryAnswers(s)
    ensures HistoryAfter(s, inputs, kind) == Readings(inputs, kind)
  {
    if inputs != [] {
      AllReadingsCounted(s, inputs[..|inputs| - 1], kind);
      HistoryStep(s, inputs, kind);
      ReadingsStep(inputs, kind);
    }
  }

  /** One failure-free cycle opens or closes a type exactly when its sample completes a full run. */
  lemma CycleFollowsWindow(s: Setting, inputs: seq<Input>, kind: AlertType)
    requires inputs != [] && Supported(kind) && ValidLedger(s.ledger) && RepositoryAnswers(s)
    requires OutagesAfter(s, inputs) == 0 && PromptAfter(s, inputs, kind)
    ensures var h := Readings(inputs, kind);
            OpenAfter(s, inputs, kind) <==>
            if Window(s.lim, h, |h|) then Latest(h) == CONDITION_HIGH else OpenAfter(s, inputs[..|inputs| - 1], kind)
  {
    LedgerStaysValid(s, inputs[..|inputs| - 1]);
    LastCycle(s, inputs, kind);
    AllReadingsCounted(s, inputs, kind);
    RunMeansWindow(s.lim, Readings(inputs, kind));
    CompletedCycle(s, inputs, kind);
  }

  /**
   Hysteresis: with no failures and no expiry, from any table, a type has an unresolved alert exactly when its
   latest full run was high, or it has had none and was open at the start. Only its own samples matter.
   */
  lemma {:induction false} OpenIffShouldBe(s: Setting, inputs: seq<Input>, kind: AlertType)
    requires Supported(kind) && ValidLedger(s.ledger) && RepositoryAnswers(s)
    requires OutagesAfter(s, inputs) == 0 && PromptAfter(s, inputs, kind)
    ensures OpenAfter(s, inputs, kind) <==> ShouldBeOpen(s.lim, Readings(inputs, kind), HasOpen(s.ledger, kind))
  {
    if inputs != [] {
      var front := inputs[..|inputs| - 1];
      OutagesGrow(s, inputs, kind);
      OpenIffShouldBe(s, front, kind);
      CycleFollowsWindow(s, inputs, kind);
      ReadingsStep(inputs, kind);
      ShouldBeOpenStep(s.lim, Readings(front, kind), Sampled(inputs[|inputs| - 1].metrics, kind),
                       HasOpen(s.ledger, kind));
    }
  }

  /** A type's alert depends on that type's samples alone: two such runs that agree on them agree on it. */
  lemma OtherTypeDoesNotMatter(s: Setting, inputs: seq<Input>, other: Setting, others: seq<Input>, kind: AlertType)
    requires Supported(kind) && s.lim == other.lim && HasOpen(s.ledger, kind) == HasOpen(other.ledger, kind)
    requires ValidLedger(s.ledger) && RepositoryAnswers(s)
    requires OutagesAfter(s, inputs) == 0 && PromptAfter(s, inputs, kind)
    requires ValidLedger(other.ledger) && RepositoryAnswers(other)
    requires OutagesAfter(other, others) == 0 && PromptAfter(other, others, kind)
    requires Readings(inputs, kind) == Readings(others, kind)
    ensures OpenAfter(s, inputs, kind) == OpenAfter(other, others, kind)
  {
    OpenIffShouldBe(s, inputs, kind);
    OpenIffShouldBe(other, others, kind);
  }

  /** The premise above holds when no Redis command fails. */
  lemma {:induction false} AnsweredPipeline(s: Setting, inputs: seq<Input>)
    requires Answered(s.out.redis)
    ensures OutagesAfter(s, inputs) == 0
    ensures forall i :: 0 <= i < |OpsAfter(s, inputs)| ==> Supported(OpsAfter(s, inputs)[i].kind)
  {
    if inputs != [] {
      AnsweredPipeline(s, inputs[..|inputs| - 1]);
    }
    AnsweredHasNoOutage(s.out.redis, s.ttl, s.start, OpsAfter(s, inputs));
  }

  /** Each opening or closing is one attempted notification, while no write is lost. */
  lemma {:induction false} FlipsAreNotified(s: Setting, inputs: seq<Input>, kind: AlertType)
    requires ValidLedger(s.ledger) && s.ledger.attempts == [] && NoLostWrites(s.out)
    ensures var actions := ActionsOf(PipelineAfter(s, inputs).1.attempts, kind);
            && |actions| == |Flips(s, inputs, kind)|
            && Alternate(actions, HasOpen(s.ledger, kind), OpenAfter(s, inputs, kind))
  {
    if inputs != [] {
      var front, x := inputs[..|inputs| - 1], inputs[|inputs| - 1];
      FlipsAreNotified(s, front, kind);
      LedgerStaysValid(s, front);
      var (p, l) := PipelineAfter(s, front);
      var counted := if s.out.repository(l.issued).Done? then Updated(s.out.redis, s.ttl, p, x.metrics).1
                   else Err(Unavailable);
      var e := Booking(x.metrics, counted, x.clocks);
      BookNotifies(s.out, s.lim, l, e, kind);
      var l' := Booked(s.out, s.lim, l, e).0;
      assert l' == PipelineAfter(s, inputs).1;
      if HasOpen(l, kind) != HasOpen(l', kind) {
        AlternateGrows(ActionsOf(l.attempts, kind), HasOpen(s.ledger, kind), HasOpen(l, kind),
                       if HasOpen(l', kind) then Created else Resolved);
      } else {
        assert ActionsOf(l.attempts, kind) + [] == ActionsOf(l.attempts, kind);
      }
    }
  }

  function ThresholdOf(kind: AlertType): real {
    if kind.HighCPU? then HIGH_CPU_THRESHOLD else HIGH_MEM_THRESHOLD
  }

  /** A notification tells the threshold of its type, a value above it when created and not above it when resolved. */
  predicate Truthful(n: Notification) {
    && Supported(n.kind) && n.threshold == ThresholdOf(n.kind)
    && (if n.action == Created then n.value > n.threshold else n.action == Resolved && n.value <= n.threshold)
  }

  /** A row added by the run tells what its notification told, and when it was resolved if it was. */
  predicate TruthfulRow(a: Alert) {
    && Supported(a.kind) && a.threshold == ThresholdOf(a.kind) && a.value > a.threshold
    && (a.resolved <==> a.resolvedAt.Some?)
  }

  ghost predicate TruthfulLedger(l0: Ledger, l: Ledger) {
    && l0.nextId <= l.nextId
    && (forall n :: n in l.attempts ==> n in l0.attempts || Truthful(n))
    && (forall id :: id in l.rows && l0.nextId <= id ==> TruthfulRow(l.rows[id]))
  }

  lemma SettleIsTruthful(out: Outside, lim: Limits, l0: Ledger, l: Ledger, kind: AlertType, n: int, value: real,
                         clock: Clock)
    requires ValidLedger(l) && Supported(kind) && TruthfulLedger(l0, l)
    ensures var threshold := ThresholdOf(kind);
            TruthfulLedger(l0, Settle(out, lim, l, kind, ConditionOf(value, threshold), n, value, threshold, clock).0)
  {
    assert |CONDITION_HIGH| != |CONDITION_NORMAL|;
  }

  lemma ProcessIsTruthful(out: Outside, lim: Limits, l0: Ledger, l: Ledger, m: Metrics, u: AlertUpdate, clocks: Clocks)
    requires ValidLedger(l) && TruthfulLedger(l0, l)
    requires u.cpuCondition == Sampled(m, HighCPU) && u.memCondition == Sampled(m, HighMem)
    ensures TruthfulLedger(l0, Processed(out, lim, l, m, u, clocks).0)
  {
    SettleIsTruthful(out, lim, l0, l, HighCPU, u.cpuCount, m.cpu, clocks.cpu);
    SettleMoves(out, lim, l, HighCPU, u.cpuCondition, u.cpuCount, m.cpu, HIGH_CPU_THRESHOLD, clocks.cpu);
    var l1 := Settle(out, lim, l, HighCPU, u.cpuCondition, u.cpuCount, m.cpu, HIGH_CPU_THRESHOLD, clocks.cpu).0;
    SettleIsTruthful(out, lim, l0, l1, HighMem, u.memCount, m.memUsage, clocks.mem);
  }

  /** Every notification and every new row of a run tells the truth about the sample that caused it. */
  lemma {:induction false} RunIsTruthful(s: Setting, inputs: seq<Input>)
    requires ValidLedger(s.ledger)
    ensures TruthfulLedger(s.ledger, PipelineAfter(s, inputs).1)
  {
    if inputs != [] {
      var front, x := inputs[..|inputs| - 1], inputs[|inputs| - 1];
      var (p, l) := PipelineAfter(s, front);
      var (q, r) := Updated(s.out.redis, s.ttl, p, x.metrics);
      var saved := l.(issued := l.issued + 1);
      if s.out.repository(l.issued).Done? && r.Ok? {
        assert PipelineAfter(s, inputs).1 == Processed(s.out, s.lim, saved, x.metrics, r.value, x.clocks).0;
        RunIsTruthful(s, front);
        LedgerStaysValid(s, front);
        ProcessIsTruthful(s.out, s.lim, s.ledger, saved, x.metrics, r.value, x.clocks);
      } else {
        assert PipelineAfter(s, inputs).1 == saved;
        RunIsTruthful(s, front);
      }
    }
  }
}
