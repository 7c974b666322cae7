/** What a read of the cache returns after writes that may have stopped half way. */
module CacheRuns {
  import opened Model
  import opened Redis
  import opened Cache
  import opened Reals
  import Decimal

  /** The texts the six keys hold, expired or not. */
  function HeldTexts(k: Keys): seq<string>
    requires |k.cells| == FIELDS
  {
    seq(FIELDS, i requires 0 <= i < FIELDS => if k.cells[i].Some? then k.cells[i].value.text else "")
  }

  ghost predicate AliveSometime(c: Cell, from: int, to: int) {
    exists at :: from <= at <= to && Live(c, at)
  }

  /** The numbers five texts stand for. */
  function Parsed(texts: seq<string>, n: nat): (r: Option<seq<real>>)
    requires n <= |texts|
    ensures r.Some? ==> |r.value| == n
  {
    if n == 0 then Some([]) else
    var xs, x := Parsed(texts, n - 1), Decimal.ParseFloat(texts[n - 1]);
    if xs.None? || x.None? then None else Some(xs.value + [x.value])
  }

  lemma {:induction false} FloatsShown(env: Environment, k: Keys, n: nat, i: nat)
    requires i < n <= |k.cells| && FetchFloats(env, k, n).1.Ok?
    ensures AliveSometime(k.cells[i], k.now, FetchFloats(env, k, n).0.now)
  {
    var (k1, xs) := FetchFloats(env, k, n - 1);
    var k2 := FetchFloat(env, k1, n - 1).0;
    assert xs.Ok? && FetchFloats(env, k, n).0 == k2;
    FloatsTime(env, k, n - 1);
    if i < n - 1 {
      FloatsShown(env, k, n - 1, i);
    } else {
      assert Live(k.cells[i], k2.now);
    }
  }

  lemma {:induction false} FloatsParse(env: Environment, k: Keys, n: nat)
    requires n <= |k.cells| == FIELDS && FetchFloats(env, k, n).1.Ok?
    ensures Parsed(HeldTexts(k), n) == Some(FetchFloats(env, k, n).1.value)
  {
    if n > 0 {
      var (k1, xs) := FetchFloats(env, k, n - 1);
      var (k2, x) := FetchFloat(env, k1, n - 1);
      assert xs.Ok? && x.Ok? && FetchFloats(env, k, n) == (k2, Ok(xs.value + [x.value]));
      FloatsParse(env, k, n - 1);
    }
  }

  /** A read that succeeds is made of keys each of which was there when it was read. */
  lemma LoadShowsKeys(env: Environment, k: Keys, i: nat)
    requires i < |k.cells| == FIELDS && Load(env, k).1.Ok?
    ensures AliveSometime(k.cells[i], k.now, Load(env, k).0.now)
  {
    var (k1, xs) := FetchFloats(env, k, Numbers());
    var k2 := Fetch(env, k1, 5).0;
    assert xs.Ok? && Load(env, k).0 == k2;
    FloatsTime(env, k, Numbers());
    if i < 5 {
      FloatsShown(env, k, Numbers(), i);
    } else {
      assert Live(k.cells[i], k2.now);
    }
  }

  /** Such a read shows what the texts held stand for. */
  lemma LoadShowsTexts(env: Environment, k: Keys)
    requires |k.cells| == FIELDS && Load(env, k).1.Ok?
    ensures var xs, time := Parsed(HeldTexts(k), Numbers()), ParseTime(HeldTexts(k)[5]);
            xs.Some? && time.Some? && Load(env, k).1 == Assemble(xs.value, time.value)
  {
    var (k1, xs) := FetchFloats(env, k, Numbers());
    var (k2, text) := Fetch(env, k1, 5);
    assert xs.Ok? && text.Ok? && Load(env, k) == (k2, Assemble(xs.value, ParseTime(text.value).value));
    FloatsParse(env, k, Numbers());
    assert k1.cells == k.cells;
  }

  /** A failed read of the numbers answers the error of the first that could not be read. */
  lemma {:induction false} FirstFailure(env: Environment, k: Keys, n: nat) returns (i: nat)
    requires n <= |k.cells| && FetchFloats(env, k, n).1.Err?
    ensures i < n && FetchFloats(env, k, i).1.Ok?
    ensures var (k', x) := FetchFloat(env, FetchFloats(env, k, i).0, i);
            x.Err? && FetchFloats(env, k, n) == (k', Err(x.error))
  {
    if FetchFloats(env, k, n - 1).1.Err? {
      i := FirstFailure(env, k, n - 1);
    } else {
      i := n - 1;
    }
  }

  /** A read complains of a zero total exactly when all six keys were read and a total is zero. */
  lemma ZeroTotalIff(env: Environment, k: Keys)
    requires |k.cells| == FIELDS
    ensures var (k1, xs) := FetchFloats(env, k, Numbers());
            var text := Fetch(env, k1, 5).1;
            Load(env, k).1 == Err(ZeroTotal) <==>
              && xs.Ok? && text.Ok? && ParseTime(text.value).Some?
              && (xs.value[2] == 0.0 || xs.value[4] == 0.0)
  {
    if FetchFloats(env, k, Numbers()).1.Err? {
      var i := FirstFailure(env, k, Numbers());
    }
  }

  /** When every command is answered and no key is gone by the end of the read, it succeeds on any parsable texts. */
  lemma {:induction false} FloatsAnswered(env: Environment, k: Keys, n: nat, end: int)
    requires n <= |k.cells| == FIELDS && FetchFloats(env, k, n).0.now <= end
    requires forall j :: k.issued <= j < k.issued + n ==> env(j).fate.Done?
    requires forall i :: 0 <= i < n ==> Live(k.cells[i], end)
    requires Parsed(HeldTexts(k), n).Some?
    ensures FetchFloats(env, k, n).1 == Ok(Parsed(HeldTexts(k), n).value)
    ensures k.now <= FetchFloats(env, k, n).0.now && FetchFloats(env, k, n).0.issued == k.issued + n
  {
    if n > 0 {
      var (k1, xs) := FetchFloats(env, k, n - 1);
      var (k2, x) := FetchFloat(env, k1, n - 1);
      FloatsTime(env, k, n);
      FloatsAnswered(env, k, n - 1, end);
      assert xs.Ok? && x.Ok? && FetchFloats(env, k, n) == (k2, Ok(xs.value + [x.value]));
    }
  }

  lemma {:induction false} FloatsTime(env: Environment, k: Keys, n: nat)
    requires n <= |k.cells|
    ensures k.now <= FetchFloats(env, k, n).0.now
    ensures n > 0 ==> FetchFloats(env, k, n - 1).0.now <= FetchFloats(env, k, n).0.now
  {
    if n > 0 {
      FloatsTime(env, k, n - 1);
    }
  }

  predicate Readable(k: Keys, m: Metrics, end: int) {
    |k.cells| == FIELDS && forall i :: 0 <= i < FIELDS ==> Live(k.cells[i], end) && k.cells[i].value.text == Texts(m)[i]
  }

  /** What is left of metrics in the cache: two decimals, whole seconds, and percentages of the rounded sizes. */
  function Recalled(m: Metrics): Result<Metrics> {
    Assemble(RoundedAll(NumbersOf(m), Numbers()), m.timestamp / SECOND * SECOND)
  }

  function RoundedAll(xs: seq<real>, n: nat): seq<real>
    requires n <= |xs|
  {
    seq(n, i requires 0 <= i < n => Decimal.Rounded(xs[i]))
  }

  lemma TextsParse(m: Metrics, texts: seq<string>)
    requires texts == Texts(m)
    ensures Parsed(texts, Numbers()) == Some(RoundedAll(NumbersOf(m), Numbers()))
    ensures ParseTime(texts[5]) == Some(m.timestamp / SECOND * SECOND)
  {
    NumbersParse(texts, NumbersOf(m), Numbers());
    TimeParses(m.timestamp);
  }

  lemma {:induction false} NumbersParse(texts: seq<string>, xs: seq<real>, n: nat)
    requires n <= |xs| <= |texts| && forall i :: 0 <= i < |xs| ==> texts[i] == Decimal.PrintFixed(xs[i])
    ensures Parsed(texts, n) == Some(RoundedAll(xs, n))
  {
    if n == 0 {
      assert RoundedAll(xs, n) == [];
    } else {
      NumbersParse(texts, xs, n - 1);
      OneMoreParses(texts, n, RoundedAll(xs, n - 1), xs[n - 1]);
      RoundedAllGrows(xs, n);
    }
  }

  lemma RoundedAllGrows(xs: seq<real>, n: nat)
    requires 0 < n <= |xs|
    ensures RoundedAll(xs, n) == RoundedAll(xs, n - 1) + [Decimal.Rounded(xs[n - 1])]
  {
  }

  lemma OneMoreParses(texts: seq<string>, n: nat, before: seq<real>, x: real)
    requires 0 < n <= |texts| && texts[n - 1] == Decimal.PrintFixed(x) && Parsed(texts, n - 1) == Some(before)
    ensures Parsed(texts, n) == Some(before + [Decimal.Rounded(x)])
  {
    Decimal.PrintedParses(x);
  }

  lemma TimeParses(t: int)
    ensures ParseTime(PrintTime(t)) == Some(t / SECOND * SECOND)
  {
    Decimal.IntRoundTrip(t / SECOND);
  }

  /** Reading back: an answered read of metrics not yet expired gives what is left of them. */
  lemma LoadRecalls(env: Environment, k: Keys, m: Metrics)
    requires |k.cells| == FIELDS && Readable(k, m, Load(env, k).0.now)
    requires forall j :: k.issued <= j < k.issued + FIELDS ==> env(j).fate.Done?
    ensures Load(env, k).1 == Recalled(m)
  {
    var end := Load(env, k).0.now;
    assert HeldTexts(k) == Texts(m);
    TextsParse(m, HeldTexts(k));
    if FetchFloats(env, k, Numbers()).0.now <= end {
      FloatsAnswered(env, k, Numbers(), end);
    }
  }

  predicate Within(x: real, y: real, d: real) {
    -d <= x - y <= d
  }

  /** The percentage of rounded sizes is within 1/T points of that of the sizes, T the rounded total. */
  lemma RoundedRatioIsClose(used: real, total: real)
    requires 0.0 <= used <= total && Decimal.Rounded(total) > 0.0
    ensures total > 0.0
    ensures var p := Decimal.Rounded(used) / Decimal.Rounded(total) * 100.0;
            0.0 <= p <= 100.0 && Within(p, 100.0 * (used / total), 1.0 / Decimal.Rounded(total))
  {
    var u, t := Decimal.Rounded(used), Decimal.Rounded(total);
    Decimal.RoundedIsClose(used);
    Decimal.RoundedIsClose(total);
    Decimal.RoundedIsMonotone(used, total);
    assert Decimal.Rounded(0.0) == 0.0;
    UnitQuotient(u, t);
    UnitQuotient(used, total);
    ErrorTimesTotal(u, t, used, total);
  }

  lemma ErrorTimesTotal(u: real, t: real, used: real, total: real)
    requires 0.0 < t && 0.0 < total && 0.0 <= used / total <= 1.0
    requires Within(u, used, 0.005) && Within(t, total, 0.005)
    ensures Within(u / t * 100.0, 100.0 * (used / total), 1.0 / t)
  {
    var x, y, b := u / t, used / total, t - total;
    assert x * t == u && y * total == used;
    assert y * t == used + y * b by {
      assert t == total + b;
      assert y * (total + b) == y * total + y * b;
    }
    ProductWithin(y, b, 0.005);
    var e := 100.0 * (u - used - y * b);
    assert Within(e, 0.0, 1.0);
    assert e == 100.0 * (x * t - y * t);
    QuotientOf(x, y, t);
    QuotientWithin(e, t);
  }

  lemma ProductWithin(y: real, b: real, d: real)
    requires 0.0 <= y <= 1.0 && Within(b, 0.0, d)
    ensures Within(y * b, 0.0, d)
  {
    NonNegativeProduct(y, d - b);
    NonNegativeProduct(y, b + d);
    NonNegativeProduct(1.0 - y, d);
    assert y * (d - b) == y * d - y * b && y * (b + d) == y * b + y * d;
    assert (1.0 - y) * d == d - y * d;
  }

  lemma QuotientOf(x: real, y: real, t: real)
    requires 0.0 < t
    ensures 100.0 * (x * t - y * t) / t == 100.0 * x - 100.0 * y
  {
    assert x * t / t == x && y * t / t == y;
  }

  lemma QuotientWithin(e: real, t: real)
    requires 0.0 < t && Within(e, 0.0, 1.0)
    ensures Within(e / t, 0.0, 1.0 / t)
  {
  }

  /**
   The round trip loses at most half a hundredth of each number and 1/T points of each percentage; a second loses
   nothing.
   */
  lemma RoundTripBound(m: Metrics)
    requires 0.0 <= m.memUsed <= m.memTotal && 0.0 <= m.diskUsed <= m.diskTotal
    requires Decimal.Rounded(m.memTotal) > 0.0 && Decimal.Rounded(m.diskTotal) > 0.0
    ensures Recalled(m).Ok?
    ensures var r := Recalled(m).value;
            && Within(r.cpu, m.cpu, 0.005)
            && Within(r.memUsed, m.memUsed, 0.005) && Within(r.memTotal, m.memTotal, 0.005)
            && Within(r.diskUsed, m.diskUsed, 0.005) && Within(r.diskTotal, m.diskTotal, 0.005)
            && m.memTotal > 0.0 && m.diskTotal > 0.0
            && 0.0 <= r.memUsage <= 100.0 && Within(r.memUsage, 100.0 * (m.memUsed / m.memTotal), 1.0 / r.memTotal)
            && 0.0 <= r.diskUsage <= 100.0 && Within(r.diskUsage, 100.0 * (m.diskUsed / m.diskTotal), 1.0 / r.diskTotal)
            && r.timestamp <= m.timestamp < r.timestamp + SECOND
            && Recalled(r) == Ok(r)
  {
    Decimal.RoundedIsClose(m.cpu);
    Decimal.RoundedIsClose(m.memUsed);
    Decimal.RoundedIsClose(m.memTotal);
    Decimal.RoundedIsClose(m.diskUsed);
    Decimal.RoundedIsClose(m.diskTotal);
    RoundedRatioIsClose(m.memUsed, m.memTotal);
    RoundedRatioIsClose(m.diskUsed, m.diskTotal);
    SecondTripIsExact(m);
  }

  /** The round trip fails exactly when a total is rounded to nothing. */
  lemma NoRoundTripIff(m: Metrics)
    ensures Recalled(m).Err? <==> Decimal.Rounded(m.memTotal) == 0.0 || Decimal.Rounded(m.diskTotal) == 0.0
    ensures Recalled(m).Err? ==> Recalled(m) == Err(ZeroTotal)
  {
  }

  lemma SecondTripIsExact(m: Metrics)
    requires Recalled(m).Ok?
    ensures Recalled(Recalled(m).value) == Recalled(m)
  {
    Decimal.RoundedIsStable(m.cpu);
    Decimal.RoundedIsStable(m.memUsed);
    Decimal.RoundedIsStable(m.memTotal);
    Decimal.RoundedIsStable(m.diskUsed);
    Decimal.RoundedIsStable(m.diskTotal);
  }

  /** Metrics written and then read by answered commands, before they expire, come back rounded. */
  lemma WriteThenRead(env: Environment, ttl: nat, k: Keys, m: Metrics)
    requires |k.cells| == FIELDS
    requires forall j :: k.issued <= j < k.issued + FIELDS + FIELDS ==> env(j).fate.Done?
    requires Load(env, Store(env, ttl, k, Texts(m), FIELDS).0).0.now < k.now + ttl
    ensures var (written, ok) := Store(env, ttl, k, Texts(m), FIELDS);
            ok && Load(env, written).1 == Recalled(m)
  {
    StoreAnswers(env, ttl, k, Texts(m), FIELDS);
    StoreWrites(env, ttl, k, Texts(m), FIELDS);
    var written := Store(env, ttl, k, Texts(m), FIELDS).0;
    var end := Load(env, written).0.now;
    forall i | 0 <= i < FIELDS
      ensures Live(written.cells[i], end) && written.cells[i].value.text == Texts(m)[i]
    {
      assert WrittenWithin(written.cells[i], Texts(m)[i], k.now, written.now, ttl);
    }
    LoadRecalls(env, written, m);
  }

  /** Whatever the keys' ages, a successful read of one call's six texts shows what is left of its metrics. */
  lemma TextsRecalled(env: Environment, k: Keys, m: Metrics)
    requires |k.cells| == FIELDS && Load(env, k).1.Ok?
    requires forall i :: 0 <= i < FIELDS ==> HeldTexts(k)[i] == Texts(m)[i]
    ensures Load(env, k).1 == Recalled(m)
  {
    LoadShowsTexts(env, k);
    assert HeldTexts(k) == Texts(m);
    TextsParse(m, HeldTexts(k));
  }

  /** A run of the cache from empty keys: writes that may stop half way, and reads. */
  datatype Call = Saving(metrics: Metrics) | Loading

  function After(env: Environment, ttl: nat, start: int, calls: seq<Call>): (k: Keys)
    ensures |k.cells| == FIELDS
  {
    if calls == [] then Keys(seq(FIELDS, i requires 0 <= i < FIELDS => None), start, 0) else
    var k := After(env, ttl, start, calls[..|calls| - 1]);
    match calls[|calls| - 1]
    case Saving(m) => Store(env, ttl, k, Texts(m), FIELDS).0
    case Loading => Load(env, k).0
  }

  function Writes(env: Environment, ttl: nat, start: int, calls: seq<Call>, i: nat): bool
    requires calls != []
  {
    calls[|calls| - 1].Saving? && i < Reach(env, After(env, ttl, start, calls[..|calls| - 1]).issued, FIELDS)
  }

  /** The number of the last call that wrote the i-th key, counting from one; zero for none. */
  function Version(env: Environment, ttl: nat, start: int, calls: seq<Call>, i: nat): (v: nat)
    ensures v <= |calls|
    ensures v > 0 ==> calls[v - 1].Saving?
  {
    if calls == [] then 0
    else if Writes(env, ttl, start, calls, i) then |calls| else Version(env, ttl, start, calls[..|calls| - 1], i)
  }

  /** Versions do not increase along the write order. */
  lemma {:induction false} VersionsDescend(env: Environment, ttl: nat, start: int, calls: seq<Call>, i: nat, j: nat)
    requires i <= j
    ensures Version(env, ttl, start, calls, j) <= Version(env, ttl, start, calls, i) <= |calls|
  {
    if calls != [] {
      VersionsDescend(env, ttl, start, calls[..|calls| - 1], i, j);
    }
  }

  /** A key holds the text of its version, written during that call. */
  ghost predicate HoldsVersion(env: Environment, ttl: nat, start: int, calls: seq<Call>, c: Cell, i: nat, v: nat)
    requires i < FIELDS && v <= |calls| && (v > 0 ==> calls[v - 1].Saving?)
  {
    if v == 0 then c == None
    else WrittenWithin(c, Texts(calls[v - 1].metrics)[i], After(env, ttl, start, calls[..v - 1]).now,
                       After(env, ttl, start, calls[..v]).now, ttl)
  }

  lemma LoadKeeps(env: Environment, k: Keys)
    requires |k.cells| == FIELDS
    ensures Load(env, k).0.cells == k.cells && k.now <= Load(env, k).0.now
  {
    FloatsTime(env, k, Numbers());
  }

  lemma HoldsLonger(env: Environment, ttl: nat, start: int, front: seq<Call>, x: Call, c: Cell, i: nat, v: nat)
    requires i < FIELDS && v <= |front| && (v > 0 ==> front[v - 1].Saving?)
    requires HoldsVersion(env, ttl, start, front, c, i, v)
    ensures HoldsVersion(env, ttl, start, front + [x], c, i, v)
  {
    var calls := front + [x];
    assert calls[..v] == front[..v] && (v > 0 ==> calls[..v - 1] == front[..v - 1]);
  }

  lemma {:induction false} KeyHoldsVersion(env: Environment, ttl: nat, start: int, calls: seq<Call>, i: nat)
    requires i < FIELDS
    ensures var c, v := After(env, ttl, start, calls).cells[i], Version(env, ttl, start, calls, i);
            HoldsVersion(env, ttl, start, calls, c, i, v)
  {
    if calls != [] {
      var front, x := calls[..|calls| - 1], calls[|calls| - 1];
      assert calls == front + [x];
      var k, k' := After(env, ttl, start, front), After(env, ttl, start, calls);
      if x.Saving? {
        StoreWrites(env, ttl, k, Texts(x.metrics), FIELDS);
      } else {
        LoadKeeps(env, k);
      }
      if Writes(env, ttl, start, calls, i) {
        assert WrittenWithin(k'.cells[i], Texts(x.metrics)[i], k.now, k'.now, ttl);
        assert calls[..|calls|] == calls;
      } else {
        KeyHoldsVersion(env, ttl, start, front, i);
        HoldsLonger(env, ttl, start, front, x, k.cells[i], i, Version(env, ttl, start, front, i));
      }
    }
  }

  ghost predicate FreshWhenRead(c: Cell, text: string, at: int, read: int, ttl: nat) {
    c == Stored(text, at, Some(ttl)) && read < at + ttl
  }

  /** A cell written between two moments and read, less than the expiry later, between two others. */
  ghost predicate ReadFresh(c: Cell, text: string, from: int, to: int, now: int, end: int, ttl: nat) {
    exists at, read :: from <= at <= to && now <= read <= end && FreshWhenRead(c, text, at, read, ttl)
  }

  lemma AliveIsFresh(c: Cell, text: string, from: int, to: int, now: int, end: int, ttl: nat)
    requires WrittenWithin(c, text, from, to, ttl) && AliveSometime(c, now, end)
    ensures ReadFresh(c, text, from, to, now, end, ttl) && c.Some? && c.value.text == text
  {
    var at :| from <= at <= to && c == Stored(text, at, Some(ttl));
    var read :| now <= read <= end && Live(c, read);
    assert FreshWhenRead(c, text, at, read, ttl);
  }

  /**
   What a read ending at `end` shows of one key: its version's text, read less than the expiry after it was
   written.
   */
  ghost predicate ShowsVersion(env: Environment, ttl: nat, start: int, calls: seq<Call>, i: nat, end: int)
    requires i < FIELDS
  {
    var v, k := Version(env, ttl, start, calls, i), After(env, ttl, start, calls);
    && v > 0
    && k.cells[i].Some? && k.cells[i].value.text == Texts(calls[v - 1].metrics)[i]
    && ReadFresh(k.cells[i], k.cells[i].value.text, After(env, ttl, start, calls[..v - 1]).now,
                 After(env, ttl, start, calls[..v]).now, k.now, end, ttl)
  }

  lemma KeyShown(env: Environment, ttl: nat, start: int, calls: seq<Call>, i: nat, end: int)
    requires i < FIELDS
    requires var k := After(env, ttl, start, calls); AliveSometime(k.cells[i], k.now, end)
    ensures ShowsVersion(env, ttl, start, calls, i, end)
  {
    var v, k := Version(env, ttl, start, calls, i), After(env, ttl, start, calls);
    KeyHoldsVersion(env, ttl, start, calls, i);
    AliveIsFresh(k.cells[i], Texts(calls[v - 1].metrics)[i], After(env, ttl, start, calls[..v - 1]).now,
                 After(env, ttl, start, calls[..v]).now, k.now, end, ttl);
  }

  /** Every field a successful read shows was written by its version, less than the expiry before it was read. */
  lemma ReadShowsVersions(env: Environment, ttl: nat, start: int, calls: seq<Call>, i: nat)
    requires Load(env, After(env, ttl, start, calls)).1.Ok? && i < FIELDS
    ensures ShowsVersion(env, ttl, start, calls, i, Load(env, After(env, ttl, start, calls)).0.now)
  {
    LoadShowsKeys(env, After(env, ttl, start, calls), i);
    KeyShown(env, ttl, start, calls, i, Load(env, After(env, ttl, start, calls)).0.now);
  }

  lemma FieldText(env: Environment, ttl: nat, start: int, calls: seq<Call>, i: nat, v: nat)
    requires Load(env, After(env, ttl, start, calls)).1.Ok? && i < FIELDS && Version(env, ttl, start, calls, i) == v
    ensures 0 < v <= |calls| && calls[v - 1].Saving?
    ensures HeldTexts(After(env, ttl, start, calls))[i] == Texts(calls[v - 1].metrics)[i]
  {
    ReadShowsVersions(env, ttl, start, calls, i);
  }

  lemma {:induction false} VersionsAgreeIff(env: Environment, ttl: nat, start: int, calls: seq<Call>)
    ensures (forall i :: 0 <= i < FIELDS ==> Version(env, ttl, start, calls, i) == Version(env, ttl, start, calls, 0))
       <==> Version(env, ttl, start, calls, 0) == Version(env, ttl, start, calls, FIELDS - 1)
  {
    forall i: nat | i < FIELDS
      ensures Version(env, ttl, start, calls, FIELDS - 1) <= Version(env, ttl, start, calls, i)
                <= Version(env, ttl, start, calls, 0)
    {
      VersionsDescend(env, ttl, start, calls, 0, i);
      VersionsDescend(env, ttl, start, calls, i, FIELDS - 1);
    }
  }

  /**
   A successful read whose first and last written keys are of one call shows exactly that call's metrics: the
   keys between them can then be of no other.
   */
  lemma SameEndsOneCall(env: Environment, ttl: nat, start: int, calls: seq<Call>)
    requires Load(env, After(env, ttl, start, calls)).1.Ok?
    requires Version(env, ttl, start, calls, 0) == Version(env, ttl, start, calls, FIELDS - 1)
    ensures var v := Version(env, ttl, start, calls, 0);
            v > 0 && Load(env, After(env, ttl, start, calls)).1 == Recalled(calls[v - 1].metrics)
  {
    var v, k := Version(env, ttl, start, calls, 0), After(env, ttl, start, calls);
    VersionsAgreeIff(env, ttl, start, calls);
    FieldText(env, ttl, start, calls, 0, v);
    forall i | 0 <= i < FIELDS
      ensures HeldTexts(k)[i] == Texts(calls[v - 1].metrics)[i]
    {
      FieldText(env, ttl, start, calls, i, v);
    }
    TextsRecalled(env, k, calls[v - 1].metrics);
  }
}
