/** The monitoring cycle: conditions are counted, and a long enough run creates or resolves an alert. */
module Monitor {
  import opened Model
  import opened Redis
  import opened Fallback
  import opened Queue
  import opened Storage
  import Cache
  import RedisStore

  const HIGH_CPU_THRESHOLD := 80.0
  const HIGH_MEM_THRESHOLD := 90.0

  datatype Limits = Limits(trigger: nat, resolve: nat)

  // AlertTriggerCount and AlertResolveCount.
  const LIMITS := Limits(3, 3)

  datatype AlertUpdate = AlertUpdate(cpuCount: int, cpuCondition: AlertCondition, memCount: int,
                                     memCondition: AlertCondition)

  /** What a cycle changes beside the store: the alerts table, the two Prometheus values and the queue. */
  datatype Ledger = Ledger(rows: Rows, nextId: nat, issued: nat, total: nat, active: int,
                           queue: QueueState, attempts: seq<Notification>)

  datatype Outside = Outside(redis: Environment, repository: nat -> Fate, queue: Outcomes)

  // The clock as one type's part of a cycle reads it: once for a creation, twice for a resolution.
  datatype Clock = Clock(first: int, second: int)

  datatype Clocks = Clocks(cpu: Clock, mem: Clock)

  function ConditionOf(value: real, threshold: real): AlertCondition {
    if value > threshold then CONDITION_HIGH else CONDITION_NORMAL
  }

  function Notify(out: Outside, l: Ledger, n: Notification): Ledger {
    l.(queue := Pushed(out.queue, l.queue, n).0, attempts := l.attempts + [n])
  }

  ghost function Choice<T>(s: set<T>): (x: T)
    requires s != {}
    ensures x in s
  {
    var x :| x in s; x
  }

  function CreateIfNeeded(out: Outside, l: Ledger, kind: AlertType, value: real, threshold: real,
                          now: int): (Ledger, bool) {
    if !out.repository(l.issued).Done? then (l.(issued := l.issued + 1), false) else
    if Open(l.rows, kind) != {} then (l.(issued := l.issued + 1), true) else
    var saving := out.repository(l.issued + 1);
    if saving.Refused? then (l.(issued := l.issued + 2), false) else
    var rows := l.rows[l.nextId := Alert(kind, now, threshold, value, false, None)];
    if saving.Lost? then (l.(rows := rows, nextId := l.nextId + 1, issued := l.issued + 2), false) else
    var saved := l.(rows := rows, nextId := l.nextId + 1, issued := l.issued + 2,
                    total := l.total + 1, active := l.active + 1);
    (Notify(out, saved, Notification(kind, Created, value, threshold, now)), true)
  }

  ghost function ResolveIfNeeded(out: Outside, l: Ledger, kind: AlertType, value: real, threshold: real, at: int,
                                 now: int): (Ledger, bool) {
    if !out.repository(l.issued).Done? then (l.(issued := l.issued + 1), false) else
    if Open(l.rows, kind) == {} then (l.(issued := l.issued + 1), true) else
    var resolving := out.repository(l.issued + 1);
    if resolving.Refused? then (l.(issued := l.issued + 2), false) else
    var rows := WithResolved(l.rows, Choice(Open(l.rows, kind)), at);
    if resolving.Lost? then (l.(rows := rows, issued := l.issued + 2), false) else
    var resolved := l.(rows := rows, issued := l.issued + 2, active := l.active - 1);
    (Notify(out, resolved, Notification(kind, Resolved, value, threshold, now)), true)
  }

  /** One type's part of a cycle. */
  ghost function Settle(out: Outside, lim: Limits, l: Ledger, kind: AlertType, condition: AlertCondition, count: int,
                        value: real, threshold: real, clock: Clock): (Ledger, bool) {
    if condition == CONDITION_HIGH && count >= lim.trigger then
      CreateIfNeeded(out, l, kind, value, threshold, clock.first)
    else if condition == CONDITION_NORMAL && count >= lim.resolve then
      ResolveIfNeeded(out, l, kind, value, threshold, clock.first, clock.second)
    else (l, true)
  }

  ghost function Processed(out: Outside, lim: Limits, l: Ledger, m: Metrics, u: AlertUpdate,
                           clocks: Clocks): (Ledger, bool) {
    var (l1, ok) := Settle(out, lim, l, HighCPU, u.cpuCondition, u.cpuCount, m.cpu, HIGH_CPU_THRESHOLD, clocks.cpu);
    if !ok then (l1, false) else
    Settle(out, lim, l1, HighMem, u.memCondition, u.memCount, m.memUsage, HIGH_MEM_THRESHOLD, clocks.mem)
  }

  function Updated(env: Environment, ttl: nat, p: Pair, m: Metrics): (Pair, Result<AlertUpdate>) {
    var cpu, mem := ConditionOf(m.cpu, HIGH_CPU_THRESHOLD), ConditionOf(m.memUsage, HIGH_MEM_THRESHOLD);
    var (p1, n) := CountSample(env, ttl, p, HighCPU, cpu);
    if n.Err? then (p1, Err(n.error)) else
    var (p2, k) := CountSample(env, ttl, p1, HighMem, mem);
    if k.Err? then (p2, Err(k.error)) else (p2, Ok(AlertUpdate(n.value, cpu, k.value, mem)))
  }

  /** The alert part of a cycle, for any answer of the counting store. */
  ghost function Book(out: Outside, lim: Limits, l: Ledger, m: Metrics, counted: Result<AlertUpdate>,
                      clocks: Clocks): (Ledger, bool) {
    var saved := l.(issued := l.issued + 1);
    if !out.repository(l.issued).Done? || counted.Err? then (saved, false)
    else Processed(out, lim, saved, m, counted.value, clocks)
  }

  /** A whole cycle: nothing is counted when the measurement could not be saved. */
  ghost function Cycle(out: Outside, ttl: nat, lim: Limits, p: Pair, l: Ledger, m: Metrics,
                       clocks: Clocks): (Pair, Ledger, bool) {
    var (q, counted) := if out.repository(l.issued).Done? then Updated(out.redis, ttl, p, m) else (p, Err(Unavailable));
    var (l', ok) := Book(out, lim, l, m, counted, clocks);
    (q, l', ok)
  }

  /** A collection, given what reading the system answered. */
  ghost function Collected(out: Outside, ttl: nat, lim: Limits, p: Pair, l: Ledger, reading: Result<Metrics>,
                           clocks: Clocks): (Pair, Ledger, bool) {
    if reading.Ok? then Cycle(out, ttl, lim, p, l, reading.value, clocks) else (p, l, false)
  }

  /** The history after a collection: one more row unless the reading failed or its insert was refused. */
  function Tabled(out: Outside, l: Ledger, table: seq<Measurement>, reading: Result<Metrics>): seq<Measurement> {
    if reading.Err? || out.repository(l.issued).Refused? then table else table + [Recorded(reading.value)]
  }

  lemma EndsAs(prefix: string, s: string)
    requires s != []
    ensures (prefix + s)[|prefix + s| - 1] == s[|s| - 1]
  {
  }

  /** No key of an alert store is a key of a cache, whatever their prefixes: they end differently. */
  lemma KeysApart(alerts: string, t: AlertType, f: RedisStore.Field, cache: string, i: nat)
    requires Supported(t) && i < Cache.FIELDS
    ensures RedisStore.AlertKey(alerts, t, RedisStore.Suffix(f)).value != cache + Cache.Name(i)
  {
    EndsAs(alerts + if t.HighCPU? then "cpu:" else "mem:", RedisStore.Suffix(f));
    EndsAs(cache, Cache.Name(i));
    assert RedisStore.AlertKey(alerts, t, RedisStore.Suffix(f)).value
        == (alerts + if t.HighCPU? then "cpu:" else "mem:") + RedisStore.Suffix(f);
  }

  lemma CacheUntouched(before: map<string, Entry>, after: map<string, Entry>, alerts: string, cache: string)
    requires RedisStore.KeepsOthers(before, after, alerts)
    ensures Cache.CellsOf(after, cache) == Cache.CellsOf(before, cache)
  {
    forall i: nat | i < Cache.FIELDS
      ensures !RedisStore.OfAlerts(alerts, cache + Cache.Name(i))
    {
      forall t: AlertType, f: RedisStore.Field | Supported(t) {
        KeysApart(alerts, t, f, cache, i);
      }
    }
  }

  lemma AlertsUntouched(before: map<string, Entry>, after: map<string, Entry>, alerts: string, cache: string,
                        t: AlertType)
    requires Cache.KeepsOthers(before, after, cache) && Supported(t)
    ensures RedisStore.SlotOf(after, alerts, t) == RedisStore.SlotOf(before, alerts, t)
  {
    forall f: RedisStore.Field
      ensures !Cache.OfCache(cache, RedisStore.AlertKey(alerts, t, RedisStore.Suffix(f)).value)
    {
      forall i: nat | i < Cache.FIELDS {
        KeysApart(alerts, t, f, cache, i);
      }
    }
  }

  /** No type has two unresolved alerts. */
  ghost predicate AtMostOne(rows: Rows) {
    forall i, j ::
      i in rows && j in rows && !rows[i].resolved && !rows[j].resolved && rows[i].kind == rows[j].kind ==> i == j
  }

  ghost predicate ValidLedger(l: Ledger) {
    AtMostOne(l.rows) && forall id :: id in l.rows ==> id < l.nextId
  }

  lemma OpenIsOne(rows: Rows, kind: AlertType, id: nat)
    requires AtMostOne(rows) && id in Open(rows, kind)
    ensures Open(rows, kind) == {id}
  {
  }

  lemma SavingKeepsOne(rows: Rows, id: nat, a: Alert)
    requires AtMostOne(rows) && (a.resolved || Open(rows, a.kind) == {})
    ensures AtMostOne(rows[id := a])
  {
    forall i | i in rows && rows[i].kind == a.kind && !a.resolved
      ensures rows[i].resolved
    {
      assert i !in Open(rows, a.kind);
    }
  }

  lemma CreateKeepsOne(out: Outside, l: Ledger, kind: AlertType, value: real, threshold: real, now: int)
    requires ValidLedger(l)
    ensures ValidLedger(CreateIfNeeded(out, l, kind, value, threshold, now).0)
  {
    if Open(l.rows, kind) == {} {
      SavingKeepsOne(l.rows, l.nextId, Alert(kind, now, threshold, value, false, None));
    }
  }

  lemma ResolveKeepsOne(out: Outside, l: Ledger, kind: AlertType, value: real, threshold: real, at: int, now: int)
    requires ValidLedger(l)
    ensures ValidLedger(ResolveIfNeeded(out, l, kind, value, threshold, at, now).0)
  {
  }

  class System {
    const repository: SQLiteRepository
    const alertState: FallbackAlertStateStore
    const queue: RedisNotificationQueue
    const cache: Cache.RedisMetricsCache?
    var metrics: Option<Metrics>
    var lastSuccess: Option<int>
    var lastError: bool
    // The process-wide Prometheus counter and gauge.
    var alertsTotal: nat
    var alertsActiveTotal: int
    ghost var attempts: seq<Notification>

    constructor (repository: SQLiteRepository, alertState: FallbackAlertStateStore, queue: RedisNotificationQueue,
                 cache: Cache.RedisMetricsCache?)
      ensures this.repository == repository && this.alertState == alertState
      ensures this.queue == queue && this.cache == cache
      ensures metrics == None && lastSuccess == None && !lastError
      ensures alertsTotal == 0 && alertsActiveTotal == 0 && attempts == []
    {
      this.repository, this.alertState, this.queue, this.cache := repository, alertState, queue, cache;
      metrics, lastSuccess, lastError := None, None, false;
      alertsTotal, alertsActiveTotal, attempts := 0, 0, [];
    }

    ghost function View(): Ledger
      reads this, repository, queue
    {
      Ledger(repository.alerts, repository.nextId, repository.issued, alertsTotal, alertsActiveTotal,
             queue.View(), attempts)
    }

    ghost predicate Valid()
      reads this, repository, queue
    {
      ValidLedger(View())
    }

    ghost function Surroundings(): Outside
    {
      Outside(alertState.redis.client.env, repository.env, queue.env)
    }

    method Push(n: Notification)
      modifies this`attempts, queue
      ensures View() == Notify(Surroundings(), old(View()), n)
    {
      var _ := queue.Push(n);
      attempts := attempts + [n];
    }

    method CreateAlertIfNeeded(kind: AlertType, value: real, threshold: real, now: int) returns (ok: bool)
      requires Valid()
      modifies this`alertsTotal, this`alertsActiveTotal, this`attempts, queue
      modifies repository`alerts, repository`nextId, repository`issued
      ensures (View(), ok) == CreateIfNeeded(Surroundings(), old(View()), kind, value, threshold, now)
      ensures Valid()
    {
      CreateKeepsOne(Surroundings(), View(), kind, value, threshold, now);
      var found := repository.GetActiveAlert(kind);
      if found.Err? {
        return false;
      }
      if found.value.None? {
        var saved := repository.SaveAlert(Alert(kind, now, threshold, value, false, None));
        if saved.Err? {
          return false;
        }
        alertsTotal := alertsTotal + 1;
        alertsActiveTotal := alertsActiveTotal + 1;
        Push(Notification(kind, Created, value, threshold, now));
      }
      return true;
    }

    method ResolveAlertIfNeeded(kind: AlertType, value: real, threshold: real, at: int, now: int) returns (ok: bool)
      requires Valid()
      modifies this`alertsActiveTotal, this`attempts, queue, repository`alerts, repository`issued
      ensures (View(), ok) == ResolveIfNeeded(Surroundings(), old(View()), kind, value, threshold, at, now)
      ensures Valid()
    {
      ResolveKeepsOne(Surroundings(), View(), kind, value, threshold, at, now);
      var found := repository.GetActiveAlert(kind);
      if found.Err? {
        return false;
      }
      if found.value.Some? {
        OpenIsOne(repository.alerts, kind, found.value.value);
        var resolved := repository.ResolveAlert(found.value.value, at);
        if !resolved {
          return false;
        }
        alertsActiveTotal := alertsActiveTotal - 1;
        Push(Notification(kind, Resolved, value, threshold, now));
      }
      return true;
    }

    ghost function Clients(): set<Client>
    {
      if cache == null then {} else {cache.client}
    }

    /** Whether the cache and the alert store use one connection. */
    ghost predicate Sharing()
    {
      cache != null && cache.client == alertState.redis.client
    }

    /** The cache's keys, with the clock of its connection. */
    ghost function CacheAt(cells: seq<Cell>, p: Pair, own: Cache.Keys): Cache.Keys
    {
      if Sharing() then Cache.Keys(cells, p.redis.now, p.redis.issued) else Cache.Keys(cells, own.now, own.issued)
    }

    method UpdateAlerts(m: Metrics) returns (r: Result<AlertUpdate>)
      modifies alertState, alertState.memory, alertState.redis.client
      ensures cache != null ==>
                cache.View() == CacheAt(old(cache.View()).cells, alertState.View(), old(cache.View()))
      ensures (alertState.View(), r)
           == Updated(alertState.redis.client.env, alertState.redis.ttl, old(alertState.View()), m)
    {
      ghost var before := alertState.redis.client.db;
      var cpu := ConditionOf(m.cpu, HIGH_CPU_THRESHOLD);
      var n := alertState.IncrementCount(HighCPU, cpu);
      CacheKept(before, alertState.redis.client.db);
      if n.Err? {
        return Err(n.error);
      }
      var mem := ConditionOf(m.memUsage, HIGH_MEM_THRESHOLD);
      var k := alertState.IncrementCount(HighMem, mem);
      CacheKept(before, alertState.redis.client.db);
      if k.Err? {
        return Err(k.error);
      }
      return Ok(AlertUpdate(n.value, cpu, k.value, mem));
    }

    lemma CacheKept(before: map<string, Entry>, after: map<string, Entry>)
      requires RedisStore.KeepsOthers(before, after, alertState.redis.prefix)
      ensures cache != null ==> Cache.CellsOf(after, cache.prefix) == Cache.CellsOf(before, cache.prefix)
    {
      if cache != null {
        CacheUntouched(before, after, alertState.redis.prefix, cache.prefix);
      }
    }

    method ProcessAlerts(m: Metrics, u: AlertUpdate, clocks: Clocks) returns (ok: bool)
      requires Valid()
      modifies this`alertsTotal, this`alertsActiveTotal, this`attempts, queue
      modifies repository`alerts, repository`nextId, repository`issued
      ensures (View(), ok) == Processed(Surroundings(), LIMITS, old(View()), m, u, clocks)
      ensures Valid()
    {
      ok := true;
      if u.cpuCondition == CONDITION_HIGH && u.cpuCount >= LIMITS.trigger {
        ok := CreateAlertIfNeeded(HighCPU, m.cpu, HIGH_CPU_THRESHOLD, clocks.cpu.first);
        if !ok {
          return;
        }
      }
      if u.cpuCondition == CONDITION_NORMAL && u.cpuCount >= LIMITS.resolve {
        ok := ResolveAlertIfNeeded(HighCPU, m.cpu, HIGH_CPU_THRESHOLD, clocks.cpu.first, clocks.cpu.second);
        if !ok {
          return;
        }
      }
      if u.memCondition == CONDITION_HIGH && u.memCount >= LIMITS.trigger {
        ok := CreateAlertIfNeeded(HighMem, m.memUsage, HIGH_MEM_THRESHOLD, clocks.mem.first);
        if !ok {
          return;
        }
      }
      if u.memCondition == CONDITION_NORMAL && u.memCount >= LIMITS.resolve {
        ok := ResolveAlertIfNeeded(HighMem, m.memUsage, HIGH_MEM_THRESHOLD, clocks.mem.first, clocks.mem.second);
      }
    }

    /** One collection, given the sample read from the system and what its clock readings show. */
    method CollectMetrics(reading: Result<Metrics>, clocks: Clocks) returns (ok: bool)
      requires Valid()
      modifies this, queue, repository, alertState, alertState.memory, alertState.redis.client, Clients()
      ensures Valid() && lastError == !ok
      ensures (metrics, lastSuccess)
           == if reading.Ok? && repository.env(old(repository.issued)).Done?
              then (Some(reading.value), Some(reading.value.timestamp)) else (old(metrics), old(lastSuccess))
      ensures repository.measurements == Tabled(Surroundings(), old(View()), old(repository.measurements), reading)
      ensures var (p, l, done) := Collected(Surroundings(), alertState.redis.ttl, LIMITS, old(alertState.View()),
                                            old(View()), reading, clocks);
              && View() == l && ok == done
              && (!(ok && Sharing()) ==> alertState.View() == p)
              && (ok && Sharing() ==>
                    alertState.View() == p.(redis := p.redis.(now := cache.View().now, issued := cache.View().issued)))
              && (cache != null ==>
                    var keys := CacheAt(old(cache.View()).cells, p, old(cache.View()));
                    cache.View() == if ok then Cache.Store(cache.client.env, cache.ttl, keys,
                                                           Cache.Texts(reading.value), Cache.FIELDS).0
                                    else keys)
    {
      if reading.Err? {
        lastError := true;
        return false;
      }
      ok := Record(reading.value, clocks);
      if ok {
        SaveToCache(reading.value);
      }
    }

    /** A collection up to the cache: the sample is saved, shown, counted and acted on. */
    method Record(m: Metrics, clocks: Clocks) returns (ok: bool)
      requires Valid()
      modifies this, queue, repository, alertState, alertState.memory, alertState.redis.client
      ensures Valid() && lastError == !ok
      ensures (metrics, lastSuccess) == if repository.env(old(repository.issued)).Done?
                                        then (Some(m), Some(m.timestamp)) else (old(metrics), old(lastSuccess))
      ensures (alertState.View(), View(), ok)
           == Cycle(Surroundings(), alertState.redis.ttl, LIMITS, old(alertState.View()), old(View()), m, clocks)
      ensures repository.measurements
           == old(repository.measurements)
              + if repository.env(old(repository.issued)).Refused? then [] else [Recorded(m)]
      ensures cache != null ==>
                cache.View() == CacheAt(old(cache.View()).cells, alertState.View(), old(cache.View()))
    {
      var saved := repository.SaveMetrics(m);
      if !saved {
        lastError := true;
        return false;
      }
      metrics, lastError, lastSuccess := Some(m), false, Some(m.timestamp);
      var update := UpdateAlerts(m);
      if update.Err? {
        lastError := true;
        return false;
      }
      ok := ProcessAlerts(m, update.value, clocks);
      lastError := !ok;
    }

    /** The end of a collection; an error of the cache is only logged. */
    method SaveToCache(m: Metrics)
      modifies Clients()
      ensures cache != null ==>
                cache.View()
                  == Cache.Store(cache.client.env, cache.ttl, old(cache.View()), Cache.Texts(m), Cache.FIELDS).0
      ensures var p := old(alertState.View());
              alertState.View()
                == if !Sharing() then p
                   else p.(redis := p.redis.(now := cache.View().now, issued := cache.View().issued))
    {
      if cache != null {
        ghost var before := cache.client.db;
        var _ := cache.SetMetrics(m);
        AlertsUntouched(before, cache.client.db, alertState.redis.prefix, cache.prefix, HighCPU);
        AlertsUntouched(before, cache.client.db, alertState.redis.prefix, cache.prefix, HighMem);
      }
    }
  }
}
