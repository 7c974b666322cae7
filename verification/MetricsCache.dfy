/** The metrics cache: six keys written one after another and read back one after another. */
module Cache {
  import opened Model
  import opened Redis
  import Decimal

  const FIELDS: nat := 6

  // All fields but the time are numbers.
  function Numbers(): nat {
    FIELDS - 1
  }

  // The keys in the order they are written and read.
  function Name(i: nat): string {
    if i == 0 then "cpu" else if i == 1 then "mem_used" else if i == 2 then "mem_total"
    else if i == 3 then "disk_used" else if i == 4 then "disk_total" else "timestamp"
  }

  lemma NamesDiffer(i: nat, j: nat)
    requires i < FIELDS && j < FIELDS && Name(i) == Name(j)
    ensures i == j
  {
    assert |Name(0)| == 3 && |Name(1)| == 8 && |Name(2)| == |Name(3)| == |Name(5)| == 9 && |Name(4)| == 10;
    assert Name(2)[0] == 'm' && Name(3)[0] == 'd' && Name(5)[0] == 't';
  }

  /** Which text goes under which name. */
  lemma NamedTexts(m: Metrics)
    ensures (Name(0), Texts(m)[0]) == ("cpu", Decimal.PrintFixed(m.cpu))
    ensures (Name(1), Texts(m)[1]) == ("mem_used", Decimal.PrintFixed(m.memUsed))
    ensures (Name(2), Texts(m)[2]) == ("mem_total", Decimal.PrintFixed(m.memTotal))
    ensures (Name(3), Texts(m)[3]) == ("disk_used", Decimal.PrintFixed(m.diskUsed))
    ensures (Name(4), Texts(m)[4]) == ("disk_total", Decimal.PrintFixed(m.diskTotal))
    ensures (Name(5), Texts(m)[5]) == ("timestamp", PrintTime(m.timestamp))
  {
  }

  const SECOND := 1_000_000_000

  // The text of a time keeps its whole seconds; here it is their count.
  function PrintTime(t: int): string {
    Decimal.PrintInt(t / SECOND)
  }

  function ParseTime(s: string): Option<int> {
    var n := Decimal.ParseInt(s);
    if n.None? then None else Some(n.value * SECOND)
  }

  function NumbersOf(m: Metrics): seq<real> {
    [m.cpu, m.memUsed, m.memTotal, m.diskUsed, m.diskTotal]
  }

  function Texts(m: Metrics): seq<string> {
    [Decimal.PrintFixed(m.cpu), Decimal.PrintFixed(m.memUsed), Decimal.PrintFixed(m.memTotal),
     Decimal.PrintFixed(m.diskUsed), Decimal.PrintFixed(m.diskTotal), PrintTime(m.timestamp)]
  }

  /** The six keys with the server's clock. */
  datatype Keys = Keys(cells: seq<Cell>, now: int, issued: nat)

  /** The metrics five numbers and a time stand for: percentages are computed anew. */
  function Assemble(xs: seq<real>, time: int): Result<Metrics>
    requires |xs| == Numbers()
  {
    if xs[2] == 0.0 || xs[4] == 0.0 then Err(ZeroTotal)
    else Ok(Metrics(xs[0], xs[1] / xs[2] * 100.0, xs[1], xs[2], xs[3] / xs[4] * 100.0, xs[3], xs[4], time))
  }

  /** One SET with an expiry. */
  function Put(env: Environment, ttl: nat, k: Keys, i: nat, text: string): (Keys, bool)
    requires i < |k.cells|
  {
    var step := env(k.issued);
    var now := k.now + step.delay;
    var cells := if step.fate.Refused? then k.cells else k.cells[i := Stored(text, now, Some(ttl))];
    (Keys(cells, now, k.issued + 1), step.fate.Done?)
  }

  /** The first `n` texts written in order, up to the first error. */
  function Store(env: Environment, ttl: nat, k: Keys, texts: seq<string>, n: nat): (r: (Keys, bool))
    requires n <= |texts| == |k.cells|
    ensures |r.0.cells| == |k.cells|
  {
    if n == 0 then (k, true) else
    var (k1, ok) := Store(env, ttl, k, texts, n - 1);
    if ok then Put(env, ttl, k1, n - 1, texts[n - 1]) else (k1, false)
  }

  /** How many of `n` commands are answered before the first that is not. */
  function Leading(env: Environment, issued: nat, n: nat): (r: nat)
    ensures r <= n
  {
    if n == 0 then 0 else
    var before := Leading(env, issued, n - 1);
    if before == n - 1 && env(issued + n - 1).fate.Done? then n else before
  }

  /** How many of `n` writes take effect: the answered ones, and the one whose answer is lost. */
  function Reach(env: Environment, issued: nat, n: nat): nat {
    var answered := Leading(env, issued, n);
    if answered < n && env(issued + answered).fate.Lost? then answered + 1 else answered
  }

  lemma {:induction false} FailedWriteStays(env: Environment, ttl: nat, k: Keys, texts: seq<string>, n: nat, m: nat)
    requires n <= m <= |texts| == |k.cells| && !Store(env, ttl, k, texts, n).1
    ensures Store(env, ttl, k, texts, m) == Store(env, ttl, k, texts, n)
  {
    if n < m {
      FailedWriteStays(env, ttl, k, texts, n, m - 1);
    }
  }

  /** The cell was last written with a text during a stretch of time. */
  ghost predicate WrittenWithin(c: Cell, text: string, from: int, to: int, ttl: nat) {
    exists at :: from <= at <= to && c == Stored(text, at, Some(ttl))
  }

  /** The first `k` texts are written, each at some moment between the two states. */
  ghost predicate Wrote(before: Keys, after: Keys, texts: seq<string>, ttl: nat, k: nat) {
    && |before.cells| == |after.cells| == |texts| && k <= |texts| && before.now <= after.now
    && (forall i :: k <= i < |texts| ==> after.cells[i] == before.cells[i])
    && (forall i :: 0 <= i < k ==> WrittenWithin(after.cells[i], texts[i], before.now, after.now, ttl))
  }

  lemma PutWrites(env: Environment, ttl: nat, k: Keys, mid: Keys, texts: seq<string>, i: nat)
    requires i < |texts| && Wrote(k, mid, texts, ttl, i)
    ensures Wrote(k, Put(env, ttl, mid, i, texts[i]).0, texts, ttl, if env(mid.issued).fate.Refused? then i else i + 1)
  {
    var after := Put(env, ttl, mid, i, texts[i]).0;
    forall j | 0 <= j < i
      ensures WrittenWithin(after.cells[j], texts[j], k.now, after.now, ttl)
    {
      assert WrittenWithin(mid.cells[j], texts[j], k.now, mid.now, ttl);
    }
    assert env(mid.issued).fate.Refused? || after.cells[i] == Stored(texts[i], after.now, Some(ttl));
  }

  lemma {:induction false} StoreAnswers(env: Environment, ttl: nat, k: Keys, texts: seq<string>, n: nat)
    requires n <= |texts| == |k.cells|
    ensures var (after, ok) := Store(env, ttl, k, texts, n);
            && (ok <==> Leading(env, k.issued, n) == n)
            && (ok <==> forall j :: k.issued <= j < k.issued + n ==> env(j).fate.Done?)
            && (ok ==> after.issued == k.issued + n)
  {
    if n > 0 {
      StoreAnswers(env, ttl, k, texts, n - 1);
    }
  }

  /** Writing stops at the first error, leaving a prefix of the texts written. */
  lemma {:induction false} StoreWrites(env: Environment, ttl: nat, k: Keys, texts: seq<string>, n: nat)
    requires n <= |texts| == |k.cells|
    ensures Wrote(k, Store(env, ttl, k, texts, n).0, texts, ttl, Reach(env, k.issued, n))
  {
    if n > 0 {
      var (mid, ok) := Store(env, ttl, k, texts, n - 1);
      StoreAnswers(env, ttl, k, texts, n - 1);
      StoreAnswers(env, ttl, k, texts, n);
      assert Reach(env, k.issued, n)
          == if !ok then Reach(env, k.issued, n - 1) else if env(mid.issued).fate.Refused? then n - 1 else n;
      assert Store(env, ttl, k, texts, n) == if ok then Put(env, ttl, mid, n - 1, texts[n - 1]) else (mid, false);
      StoreWrites(env, ttl, k, texts, n - 1);
      if ok {
        PutWrites(env, ttl, k, mid, texts, n - 1);
      }
    }
  }

  /** One GET: a missing key is a cache miss. */
  function Fetch(env: Environment, k: Keys, i: nat): (Keys, Result<string>)
    requires i < |k.cells|
  {
    var step := env(k.issued);
    var now := k.now + step.delay;
    (k.(now := now, issued := k.issued + 1),
     if !step.fate.Done? then Err(Unavailable)
     else if Live(k.cells[i], now) then Ok(k.cells[i].value.text) else Err(CacheMiss))
  }

  function FetchFloat(env: Environment, k: Keys, i: nat): (Keys, Result<real>)
    requires i < |k.cells|
  {
    var (k', text) := Fetch(env, k, i);
    (k', if text.Err? then Err(text.error) else
         var x := Decimal.ParseFloat(text.value);
         if x.None? then Err(Malformed) else Ok(x.value))
  }

  function FetchFloats(env: Environment, k: Keys, n: nat): (r: (Keys, Result<seq<real>>))
    requires n <= |k.cells|
    ensures r.0.cells == k.cells && (r.1.Ok? ==> |r.1.value| == n)
  {
    if n == 0 then (k, Ok([])) else
    var (k1, xs) := FetchFloats(env, k, n - 1);
    if xs.Err? then (k1, xs) else
    var (k2, x) := FetchFloat(env, k1, n - 1);
    (k2, if x.Err? then Err(x.error) else Ok(xs.value + [x.value]))
  }

  lemma {:induction false} FirstErrorStays(env: Environment, k: Keys, n: nat, m: nat)
    requires n <= m <= |k.cells| && FetchFloats(env, k, n).1.Err?
    ensures FetchFloats(env, k, m) == FetchFloats(env, k, n)
  {
    if n < m {
      FirstErrorStays(env, k, n, m - 1);
    }
  }

  lemma FetchStep(env: Environment, k: Keys, n: nat, xs: seq<real>)
    requires n < |k.cells| && FetchFloats(env, k, n).1 == Ok(xs)
    ensures var (k', x) := FetchFloat(env, FetchFloats(env, k, n).0, n);
            FetchFloats(env, k, n + 1) == (k', if x.Err? then Err(x.error) else Ok(xs + [x.value]))
  {
  }

  /** A read: six GETs in order up to the first error, then the percentages. */
  function Load(env: Environment, k: Keys): (Keys, Result<Metrics>)
    requires |k.cells| == FIELDS
  {
    var (k1, xs) := FetchFloats(env, k, Numbers());
    if xs.Err? then (k1, Err(xs.error)) else
    var (k2, text) := Fetch(env, k1, 5);
    if text.Err? then (k2, Err(text.error)) else
    var time := ParseTime(text.value);
    (k2, if time.None? then Err(Malformed) else Assemble(xs.value, time.value))
  }

  function CellsOf(db: map<string, Entry>, prefix: string): seq<Cell> {
    seq(FIELDS, i requires 0 <= i < FIELDS => CellAt(db, prefix + Name(i)))
  }

  /** Changing one key changes one cell. */
  lemma KeyFrames(db: map<string, Entry>, prefix: string, i: nat, c: Cell)
    requires i < FIELDS
    ensures CellsOf(WithCell(db, prefix + Name(i), c), prefix) == CellsOf(db, prefix)[i := c]
  {
    forall j: nat | j < FIELDS && j != i
      ensures prefix + Name(j) != prefix + Name(i)
    {
      if prefix + Name(j) == prefix + Name(i) {
        assert (prefix + Name(j))[|prefix|..] == Name(j) && (prefix + Name(i))[|prefix|..] == Name(i);
        NamesDiffer(i, j);
      }
    }
  }

  /** One of the keys a cache with the given prefix uses. */
  ghost predicate OfCache(prefix: string, key: string) {
    exists i: nat :: i < FIELDS && key == prefix + Name(i)
  }

  /** Keys that are not the cache's are as they were. */
  ghost predicate KeepsOthers(before: map<string, Entry>, after: map<string, Entry>, prefix: string) {
    forall key :: !OfCache(prefix, key) ==> CellAt(after, key) == CellAt(before, key)
  }

  class RedisMetricsCache {
    const client: Client
    const ttl: nat
    const prefix: string

    constructor (client: Client, ttl: nat, prefix: string)
      ensures this.client == client && this.ttl == ttl && this.prefix == prefix
    {
      this.client, this.ttl, this.prefix := client, ttl, prefix;
    }

    ghost function View(): Keys
      reads client
    {
      Keys(CellsOf(client.db, prefix), client.now, client.issued)
    }

    /** One command on the i-th key. */
    method Do(i: nat, cmd: Command) returns (r: Result<Reply>)
      requires i < FIELDS
      modifies client
      ensures KeepsOthers(old(client.db), client.db, prefix)
      ensures View().issued == old(View()).issued + 1
      ensures View().now == old(View()).now + client.env(old(View()).issued).delay
      ensures View().cells == if client.env(old(View()).issued).fate.Refused? then old(View()).cells
                              else old(View()).cells[i := Effect(cmd, old(View()).cells[i], View().now)]
      ensures r == if client.env(old(View()).issued).fate.Done? then Answer(cmd, old(View()).cells[i], View().now)
                   else Err(Unavailable)
    {
      ghost var db := client.db;
      assert OfCache(prefix, prefix + Name(i));
      r := client.Do(prefix + Name(i), cmd);
      KeyFrames(db, prefix, i, Effect(cmd, CellAt(db, prefix + Name(i)), client.now));
    }

    method SetMetric(i: nat, text: string, ghost k: Keys, ghost texts: seq<string>) returns (ok: bool)
      requires i < FIELDS == |texts| == |k.cells| && texts[i] == text
      requires Store(client.env, ttl, k, texts, i) == (View(), true)
      modifies client
      ensures KeepsOthers(old(client.db), client.db, prefix)
      ensures ok ==> Store(client.env, ttl, k, texts, i + 1) == (View(), true)
      ensures !ok ==> Store(client.env, ttl, k, texts, FIELDS) == (View(), false)
    {
      var r := Do(i, Set(text, Some(ttl)));
      ok := r.Ok?;
      if !ok {
        FailedWriteStays(client.env, ttl, k, texts, i + 1, FIELDS);
      }
    }

    /** Six writes in order, stopping at the first error. */
    method SetMetrics(m: Metrics) returns (ok: bool)
      modifies client
      ensures KeepsOthers(old(client.db), client.db, prefix)
      ensures (View(), ok) == Store(client.env, ttl, old(View()), Texts(m), FIELDS)
    {
      ghost var k, texts := View(), Texts(m);
      ok := SetMetric(0, Decimal.PrintFixed(m.cpu), k, texts);
      if !ok {
        return;
      }
      ok := SetMetric(1, Decimal.PrintFixed(m.memUsed), k, texts);
      if !ok {
        return;
      }
      ok := SetMetric(2, Decimal.PrintFixed(m.memTotal), k, texts);
      if !ok {
        return;
      }
      ok := SetMetric(3, Decimal.PrintFixed(m.diskUsed), k, texts);
      if !ok {
        return;
      }
      ok := SetMetric(4, Decimal.PrintFixed(m.diskTotal), k, texts);
      if !ok {
        return;
      }
      ok := SetMetric(5, PrintTime(m.timestamp), k, texts);
    }

    method GetMetrics() returns (r: Result<Metrics>)
      modifies client
      ensures (View(), r) == Load(client.env, old(View()))
    {
      var numbers := GetNumbers();
      if numbers.Err? {
        return Err(numbers.error);
      }
      var text := Read(5);
      if text.Err? {
        return Err(text.error);
      }
      var time := ParseTime(text.value);
      if time.None? {
        return Err(Malformed);
      }
      return Assemble(numbers.value, time.value);
    }

    /** The five numbers, in the order of their keys. */
    method GetNumbers() returns (r: Result<seq<real>>)
      modifies client
      ensures (View(), r) == FetchFloats(client.env, old(View()), Numbers())
    {
      ghost var k := View();
      var xs: seq<real> := [];
      var cpu := NextNumber(0, k, xs);
      if cpu.Err? {
        return Err(cpu.error);
      }
      xs := xs + [cpu.value];
      var memUsed := NextNumber(1, k, xs);
      if memUsed.Err? {
        return Err(memUsed.error);
      }
      xs := xs + [memUsed.value];
      var memTotal := NextNumber(2, k, xs);
      if memTotal.Err? {
        return Err(memTotal.error);
      }
      xs := xs + [memTotal.value];
      var diskUsed := NextNumber(3, k, xs);
      if diskUsed.Err? {
        return Err(diskUsed.error);
      }
      xs := xs + [diskUsed.value];
      var diskTotal := NextNumber(4, k, xs);
      if diskTotal.Err? {
        return Err(diskTotal.error);
      }
      xs := xs + [diskTotal.value];
      return Ok(xs);
    }

    method NextNumber(i: nat, ghost k: Keys, ghost xs: seq<real>) returns (r: Result<real>)
      requires i < Numbers() && |xs| == i && |k.cells| == FIELDS && FetchFloats(client.env, k, i) == (View(), Ok(xs))
      modifies client
      ensures r.Ok? ==> FetchFloats(client.env, k, i + 1) == (View(), Ok(xs + [r.value]))
      ensures r.Err? ==> FetchFloats(client.env, k, Numbers()) == (View(), Err(r.error))
    {
      r := GetFloatMetric(i);
      FetchStep(client.env, k, i, xs);
      if r.Err? {
        FirstErrorStays(client.env, k, i + 1, Numbers());
      }
    }

    method Read(i: nat) returns (r: Result<string>)
      requires i < FIELDS
      modifies client
      ensures (View(), r) == Fetch(client.env, old(View()), i)
      ensures var cell := old(View()).cells[i];
              r == if !client.env(old(client.issued)).fate.Done? then Err(Unavailable)
                   else if Live(cell, client.now) then Ok(cell.value.text) else Err(CacheMiss)
    {
      ghost var before := View();
      var reply := Do(i, Get);
      assert before.cells[i := before.cells[i]] == before.cells;
      if reply.Err? {
        return Err(reply.error);
      }
      if reply.value.Nil? {
        return Err(CacheMiss);
      }
      return Ok(reply.value.text);
    }

    method GetFloatMetric(i: nat) returns (r: Result<real>)
      requires i < FIELDS
      modifies client
      ensures (View(), r) == FetchFloat(client.env, old(View()), i)
      ensures var cell := old(View()).cells[i];
              r == if !client.env(old(client.issued)).fate.Done? then Err(Unavailable)
                   else if !Live(cell, client.now) then Err(CacheMiss)
                   else if Decimal.ParseFloat(cell.value.text).None? then Err(Malformed)
                   else Ok(Decimal.ParseFloat(cell.value.text).value)
    {
      var text := Read(i);
      if text.Err? {
        return Err(text.error);
      }
      var x := Decimal.ParseFloat(text.value);
      if x.None? {
        return Err(Malformed);
      }
      return Ok(x.value);
    }
  }
}
