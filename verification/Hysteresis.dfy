/** When alerts open and close, told in the numbers the service uses. */
module Hysteresis {
  import opened Model
  import opened RunLength
  import opened Monitor
  import opened LedgerRuns
  import opened AlertRuns

  /** The last three of `i` readings were above a line. */
  predicate ThreeAbove(values: seq<real>, line: real, i: nat) {
    3 <= i <= |values| && values[i - 3] > line && values[i - 2] > line && values[i - 1] > line
  }

  /** None of the last three of `i` readings was. */
  predicate ThreeNotAbove(values: seq<real>, line: real, i: nat) {
    3 <= i <= |values| && values[i - 3] <= line && values[i - 2] <= line && values[i - 1] <= line
  }

  /** No three readings after the first `i` were all on one side of the line. */
  predicate MixedAfter(values: seq<real>, line: real, i: nat) {
    forall k :: i < k <= |values| ==> !ThreeAbove(values, line, k) && !ThreeNotAbove(values, line, k)
  }

  /** The latest three readings on one side of the line were above it, or there were none such and one was open. */
  ghost predicate AlertDue(values: seq<real>, line: real, initially: bool) {
    || (exists i :: ThreeAbove(values, line, i) && MixedAfter(values, line, i))
    || (initially && MixedAfter(values, line, 0))
  }

  function CpuOf(inputs: seq<Input>): seq<real> {
    seq(|inputs|, i requires 0 <= i < |inputs| => inputs[i].metrics.cpu)
  }

  function MemoryOf(inputs: seq<Input>): seq<real> {
    seq(|inputs|, i requires 0 <= i < |inputs| => inputs[i].metrics.memUsage)
  }

  // A run of the service: the limits are those its methods use.
  function Service(out: Outside, ttl: nat, start: int, ledger: Ledger): Setting {
    Setting(out, ttl, LIMITS, start, ledger)
  }

  /** The samples of readings against a line. */
  predicate Against(values: seq<real>, line: real, h: History) {
    |h| == |values| && forall i :: 0 <= i < |h| ==> h[i] == if values[i] > line then "high" else "normal"
  }

  lemma HighIsNotNormal()
    ensures "high" != "normal"
  {
    assert |"high"| != |"normal"|;
  }

  lemma WindowAgainst(values: seq<real>, line: real, h: History, i: nat)
    requires Against(values, line, h)
    ensures Window(Limits(3, 3), h, i) && h[i - 1] == "high" <==> ThreeAbove(values, line, i)
    ensures Window(Limits(3, 3), h, i) && h[i - 1] != "high" <==> ThreeNotAbove(values, line, i)
  {
    HighIsNotNormal();
    if 3 <= i <= |h| {
      var three := h[..i];
      assert three[i - 3] == h[i - 3] && three[i - 2] == h[i - 2] && three[i - 1] == h[i - 1];
    }
  }

  lemma WindowsAgainst(values: seq<real>, line: real, h: History)
    requires Against(values, line, h)
    ensures forall i: nat ::
              Window(Limits(3, 3), h, i) <==> ThreeAbove(values, line, i) || ThreeNotAbove(values, line, i)
  {
    forall i: nat {
      WindowAgainst(values, line, h, i);
    }
  }

  lemma LatestAgainst(values: seq<real>, line: real, h: History, i: nat)
    requires Against(values, line, h)
    ensures LatestHigh(Limits(3, 3), h, i) <==> ThreeAbove(values, line, i) && MixedAfter(values, line, i)
  {
    WindowsAgainst(values, line, h);
    WindowAgainst(values, line, h, i);
  }

  lemma OpenAgainst(values: seq<real>, line: real, h: History, initially: bool)
    requires Against(values, line, h)
    ensures ShouldBeOpen(Limits(3, 3), h, initially) <==> AlertDue(values, line, initially)
  {
    forall i: nat {
      LatestAgainst(values, line, h, i);
    }
    WindowsAgainst(values, line, h);
  }

  /**
   With no failure, and no sample of the CPU finding a key it reads expired: a CPU alert is open after a run exactly
   when the latest three readings on one side of 80 were above it, or there were none such and one was open at the
   start.
   */
  lemma {:induction false} CpuAlertIff(out: Outside, ttl: nat, start: int, ledger: Ledger, inputs: seq<Input>)
    requires var s := Service(out, ttl, start, ledger);
             && ValidLedger(ledger) && RepositoryAnswers(s)
             && OutagesAfter(s, inputs) == 0 && PromptAfter(s, inputs, HighCPU)
    ensures OpenAfter(Service(out, ttl, start, ledger), inputs, HighCPU)
       <==> AlertDue(CpuOf(inputs), 80.0, HasOpen(ledger, HighCPU))
  {
    var h := Readings(inputs, HighCPU);
    OpenIffShouldBe(Service(out, ttl, start, ledger), inputs, HighCPU);
    assert Against(CpuOf(inputs), 80.0, h);
    OpenAgainst(CpuOf(inputs), 80.0, h, HasOpen(ledger, HighCPU));
  }

  /** The same of memory, with 90 for 80. */
  lemma {:induction false} MemoryAlertIff(out: Outside, ttl: nat, start: int, ledger: Ledger, inputs: seq<Input>)
    requires var s := Service(out, ttl, start, ledger);
             && ValidLedger(ledger) && RepositoryAnswers(s)
             && OutagesAfter(s, inputs) == 0 && PromptAfter(s, inputs, HighMem)
    ensures OpenAfter(Service(out, ttl, start, ledger), inputs, HighMem)
       <==> AlertDue(MemoryOf(inputs), 90.0, HasOpen(ledger, HighMem))
  {
    var h := Readings(inputs, HighMem);
    OpenIffShouldBe(Service(out, ttl, start, ledger), inputs, HighMem);
    assert Against(MemoryOf(inputs), 90.0, h);
    OpenAgainst(MemoryOf(inputs), 90.0, h, HasOpen(ledger, HighMem));
  }
}
