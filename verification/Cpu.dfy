/** CPU usage from two readings of eight 64-bit counters. */
module Cpu {
  import opened Reals

  const WORD := 0x1_0000_0000_0000_0000

  // user, nice, system, idle, iowait, irq, softirq, steal
  type Counters = s: seq<int> | |s| == 8 && forall i :: 0 <= i < 8 ==> 0 <= s[i] < WORD
    witness [0, 0, 0, 0, 0, 0, 0, 0]

  // Addition and subtraction of unsigned 64-bit words wrap around.
  function Wrap(x: int): int {
    x % WORD
  }

  function Usage(first: Counters, second: Counters): real
    requires TotalTime(first, second) != 0
  {
    WorkTime(first, second) as real / TotalTime(first, second) as real * 100.0
  }

  function Delta(first: Counters, second: Counters, i: nat): int
    requires i < 8
  {
    Wrap(second[i] - first[i])
  }

  /** The sum of words, wrapping at every addition. */
  function SumWrapped(words: seq<int>): int {
    if words == [] then 0 else Wrap(SumWrapped(words[..|words| - 1]) + words[|words| - 1])
  }

  function WorkDeltas(first: Counters, second: Counters): seq<int> {
    [Delta(first, second, 0), Delta(first, second, 1), Delta(first, second, 2),
     Delta(first, second, 5), Delta(first, second, 6), Delta(first, second, 7)]
  }

  function WaitingDeltas(first: Counters, second: Counters): seq<int> {
    [Delta(first, second, 3), Delta(first, second, 4)]
  }

  function WorkTime(first: Counters, second: Counters): int {
    SumWrapped(WorkDeltas(first, second))
  }

  function TotalTime(first: Counters, second: Counters): int {
    SumWrapped(WorkDeltas(first, second) + WaitingDeltas(first, second))
  }

  // The counters as they would be without a word size, and what a 64-bit reading shows of them.
  predicate Grows(a: seq<int>, b: seq<int>) {
    |a| == |b| == 8 && forall i :: 0 <= i < 8 ==> 0 <= a[i] <= b[i]
  }

  function Reading(a: seq<int>): (r: Counters)
    requires |a| == 8
  {
    seq(8, i requires 0 <= i < 8 => Wrap(a[i]))
  }

  function Work(a: seq<int>, b: seq<int>): int
    requires |a| == |b| == 8
  {
    (b[0] - a[0]) + (b[1] - a[1]) + (b[2] - a[2]) + (b[5] - a[5]) + (b[6] - a[6]) + (b[7] - a[7])
  }

  function Waiting(a: seq<int>, b: seq<int>): int
    requires |a| == |b| == 8
  {
    (b[3] - a[3]) + (b[4] - a[4])
  }

  lemma DeltaIsTrue(x: int, y: int)
    requires 0 <= x <= y < x + WORD
    ensures Wrap(Wrap(y) - Wrap(x)) == y - x
  {
  }

  lemma SmallIsExact(x: int)
    requires 0 <= x < WORD
    ensures Wrap(x) == x
  {
  }

  function Sum(xs: seq<int>): int {
    if xs == [] then 0 else Sum(xs[..|xs| - 1]) + xs[|xs| - 1]
  }

  lemma {:induction false} SumIsExact(words: seq<int>)
    requires (forall i :: 0 <= i < |words| ==> 0 <= words[i]) && Sum(words) < WORD
    ensures 0 <= Sum(words) && SumWrapped(words) == Sum(words)
  {
    if words != [] {
      var front := words[..|words| - 1];
      SumIsNatural(front);
      SumIsExact(front);
      SmallIsExact(Sum(words));
    }
  }

  lemma {:induction false} SumIsNatural(xs: seq<int>)
    requires forall i :: 0 <= i < |xs| ==> 0 <= xs[i]
    ensures 0 <= Sum(xs)
  {
    if xs != [] {
      SumIsNatural(xs[..|xs| - 1]);
    }
  }

  lemma SumGrows(xs: seq<int>, x: int)
    ensures Sum(xs + [x]) == Sum(xs) + x
  {
    assert (xs + [x])[..|xs|] == xs;
  }

  lemma SumOfEight(a: int, b: int, c: int, d: int, e: int, f: int, g: int, h: int)
    ensures Sum([a, b, c, d, e, f]) == a + b + c + d + e + f
    ensures Sum([a, b, c, d, e, f] + [g, h]) == a + b + c + d + e + f + g + h
  {
    SumGrows([], a);
    SumGrows([a], b);
    SumGrows([a, b], c);
    SumGrows([a, b, c], d);
    SumGrows([a, b, c, d], e);
    SumGrows([a, b, c, d, e], f);
    var six := [a, b, c, d, e, f];
    assert [a] + [b] == [a, b] && [a, b] + [c] == [a, b, c] && [a, b, c] + [d] == [a, b, c, d];
    assert [a, b, c, d] + [e] == [a, b, c, d, e] && [a, b, c, d, e] + [f] == six;
    SumGrows(six, g);
    SumGrows(six + [g], h);
    assert six + [g] + [h] == six + [g, h];
  }

  lemma DeltasAreTrue(a: seq<int>, b: seq<int>)
    requires Grows(a, b) && Work(a, b) + Waiting(a, b) < WORD
    ensures WorkDeltas(Reading(a), Reading(b))
         == [b[0] - a[0], b[1] - a[1], b[2] - a[2], b[5] - a[5], b[6] - a[6], b[7] - a[7]]
    ensures WaitingDeltas(Reading(a), Reading(b)) == [b[3] - a[3], b[4] - a[4]]
  {
    DeltaAt(a, b, 0);
    DeltaAt(a, b, 1);
    DeltaAt(a, b, 2);
    DeltaAt(a, b, 3);
    DeltaAt(a, b, 4);
    DeltaAt(a, b, 5);
    DeltaAt(a, b, 6);
    DeltaAt(a, b, 7);
  }

  lemma DeltaAt(a: seq<int>, b: seq<int>, i: nat)
    requires Grows(a, b) && Work(a, b) + Waiting(a, b) < WORD && i < 8
    ensures Delta(Reading(a), Reading(b), i) == b[i] - a[i]
  {
    DeltaIsTrue(a[i], b[i]);
  }

  lemma TimesAreTrue(a: seq<int>, b: seq<int>)
    requires Grows(a, b) && Work(a, b) + Waiting(a, b) < WORD
    ensures WorkTime(Reading(a), Reading(b)) == Work(a, b)
    ensures TotalTime(Reading(a), Reading(b)) == Work(a, b) + Waiting(a, b)
  {
    DeltasAreTrue(a, b);
    var work, waiting := WorkDeltas(Reading(a), Reading(b)), WaitingDeltas(Reading(a), Reading(b));
    SumOfEight(b[0] - a[0], b[1] - a[1], b[2] - a[2], b[5] - a[5], b[6] - a[6], b[7] - a[7], b[3] - a[3], b[4] - a[4]);
    assert Sum(work) == Work(a, b) && Sum(work + waiting) == Work(a, b) + Waiting(a, b);
    SumIsExact(work);
    SumIsExact(work + waiting);
  }

  /** Wrapped counters give the exact usage as long as the total increase fits a word. */
  lemma UsageIsExact(a: seq<int>, b: seq<int>)
    requires Grows(a, b) && 0 < Work(a, b) + Waiting(a, b) < WORD
    ensures TotalTime(Reading(a), Reading(b)) == Work(a, b) + Waiting(a, b)
    ensures var u := Usage(Reading(a), Reading(b));
            && u == 100.0 * Work(a, b) as real / (Work(a, b) + Waiting(a, b)) as real
            && 0.0 <= u <= 100.0
            && (u == 0.0 <==> Work(a, b) == 0)
            && (u == 100.0 <==> Waiting(a, b) == 0)
  {
    TimesAreTrue(a, b);
    PercentFacts(Work(a, b), Waiting(a, b));
  }

  lemma PercentFacts(work: int, waiting: int)
    requires 0 <= work && 0 <= waiting && 0 < work + waiting
    ensures var u := work as real / (work + waiting) as real * 100.0;
            && u == 100.0 * work as real / (work + waiting) as real
            && 0.0 <= u <= 100.0 && (u == 0.0 <==> work == 0) && (u == 100.0 <==> waiting == 0)
  {
    var w, t := work as real, (work + waiting) as real;
    Quotient(w, t, w / t);
    Quotient(100.0 * w, t, w / t * 100.0);
  }

  // A quotient is the number that multiplies back, and it grows with its dividend.
  lemma Quotient(w: real, t: real, q: real)
    requires 0.0 < t
    ensures q * t == w <==> q == w / t
    ensures 0.0 <= w <= t ==> 0.0 <= w / t <= 1.0
    ensures (w == 0.0 <==> w / t == 0.0) && (w == t <==> w / t == 1.0)
  {
    var d := w / t;
    assert d * t == w;
    SameProduct(q, d, t);
    SameProduct(d, 0.0, t);
    SameProduct(d, 1.0, t);
    Distributes(0.0, d, t);
    Distributes(1.0, d, t);
    if 0.0 <= w <= t {
      if d < 0.0 { PositiveProduct(0.0 - d, t); }
      if d > 1.0 { PositiveProduct(d - 1.0, t); }
    }
  }

  lemma SameProduct(x: real, y: real, t: real)
    requires 0.0 < t
    ensures x * t == y * t <==> x == y
  {
    Distributes(x, y, t);
    if x < y { PositiveProduct(y - x, t); }
    if y < x { PositiveProduct(x - y, t); }
  }
}
