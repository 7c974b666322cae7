/** The store the service uses: Redis first, memory while Redis is out, and a resync before Redis is trusted again. */
module Fallback {
  import opened Model
  import opened Redis
  import opened RedisStore
  import opened InMemory

  datatype Pair = Pair(memory: States, redis: Slots, failed: bool)

  function Fresh(start: int): Pair {
    Pair(map[], NoKeys(start), false)
  }

  const RESYNCED := [HighMem, HighCPU]

  /** Copies memory's states back to Redis, one type after the other, up to the first error. */
  function Resync(env: Environment, ttl: nat, p: Pair): (Slots, bool) {
    var (w, ok) := Overwrite(env, ttl, p.redis, HighMem, StateAt(p.memory, HighMem));
    if !ok then (w, false) else Overwrite(env, ttl, w, HighCPU, StateAt(p.memory, HighCPU))
  }

  /** What every increment and every mark does first. */
  function Recover(env: Environment, ttl: nat, p: Pair): Pair {
    if !p.failed then p else
    var (w, ok) := Resync(env, ttl, p);
    p.(redis := w, failed := !ok)
  }

  function CountInMemory(p: Pair, t: AlertType, c: AlertCondition): (Pair, Result<int>) {
    if !Supported(t) then (p, Err(InvalidType)) else
    var states := Counted(p.memory, t, c);
    (p.(memory := states), Ok(states[t].count))
  }

  function MarkInMemory(p: Pair, t: AlertType, active: bool): (Pair, bool) {
    if Supported(t) then (p.(memory := Marked(p.memory, t, active)), true) else (p, false)
  }

  function CountOn(env: Environment, ttl: nat, q: Pair, t: AlertType, c: AlertCondition): (Pair, Result<int>) {
    if q.failed then CountInMemory(q, t, c) else
    var (w, n) := Increment(env, ttl, q.redis, t, c);
    if n.Ok? then (q.(redis := w), n) else CountInMemory(q.(redis := w, failed := true), t, c)
  }

  function CountSample(env: Environment, ttl: nat, p: Pair, t: AlertType, c: AlertCondition): (Pair, Result<int>) {
    CountOn(env, ttl, Recover(env, ttl, p), t, c)
  }

  function MarkOn(env: Environment, q: Pair, t: AlertType, active: bool): (Pair, bool) {
    if q.failed then MarkInMemory(q, t, active) else
    var (w, ok) := Mark(env, q.redis, t, active);
    if ok then (q.(redis := w), true) else MarkInMemory(q.(redis := w, failed := true), t, active)
  }

  function MarkActive(env: Environment, ttl: nat, p: Pair, t: AlertType, active: bool): (Pair, bool) {
    MarkOn(env, Recover(env, ttl, p), t, active)
  }

  // Redis is asked first even after a failure, and a failure here is not remembered.
  function QueryActive(env: Environment, p: Pair, t: AlertType): (Pair, Result<bool>) {
    var (w, r) := Activity(env, p.redis, t);
    (p.(redis := w),
     if r.Ok? then r else if Supported(t) then Ok(StateAt(p.memory, t).active) else Err(InvalidType))
  }

  class FallbackAlertStateStore {
    const memory: InMemoryAlertStateStore
    const redis: RedisAlertStateStore
    var redisFailed: bool

    constructor (memory: InMemoryAlertStateStore, redis: RedisAlertStateStore)
      ensures this.memory == memory && this.redis == redis && !redisFailed
    {
      this.memory, this.redis, redisFailed := memory, redis, false;
    }

    ghost function View(): Pair
      reads this, memory, redis.client
    {
      Pair(memory.states, redis.View(), redisFailed)
    }

    method IncrementCount(t: AlertType, c: AlertCondition) returns (r: Result<int>)
      modifies this, memory, redis.client
      ensures KeepsOthers(old(redis.client.db), redis.client.db, redis.prefix)
      ensures (View(), r) == CountSample(redis.client.env, redis.ttl, old(View()), t, c)
      ensures !Supported(t) ==> r == Err(InvalidType) && redisFailed && memory.states == old(memory.states)
    {
      if redisFailed {
        var ok := ResyncAll();
        if ok {
          redisFailed := false;
        }
      }
      if !redisFailed {
        r := redis.IncrementCount(t, c);
        if r.Ok? {
          return;
        }
        redisFailed := true;
      }
      r := memory.IncrementCount(t, c);
    }

    method IsActive(t: AlertType) returns (r: Result<bool>)
      modifies redis.client
      ensures KeepsOthers(old(redis.client.db), redis.client.db, redis.prefix)
      ensures (View(), r) == QueryActive(redis.client.env, old(View()), t)
      ensures if Supported(t) then r.Ok? else r == Err(InvalidType)
    {
      r := redis.IsActive(t);
      if r.Err? {
        r := memory.IsActive(t);
      }
    }

    method SetActive(t: AlertType, active: bool) returns (ok: bool)
      modifies this, memory, redis.client
      ensures KeepsOthers(old(redis.client.db), redis.client.db, redis.prefix)
      ensures (View(), ok) == MarkActive(redis.client.env, redis.ttl, old(View()), t, active)
      ensures ok == Supported(t) && (!ok ==> redisFailed && memory.states == old(memory.states))
    {
      if redisFailed {
        var synced := ResyncAll();
        if !synced {
          ok := memory.SetActive(t, active);
          return;
        }
        redisFailed := false;
      }
      ok := redis.SetActive(t, active);
      if !ok {
        redisFailed := true;
        ok := memory.SetActive(t, active);
      }
    }

    method ResyncAll() returns (ok: bool)
      modifies redis.client
      ensures KeepsOthers(old(redis.client.db), redis.client.db, redis.prefix)
      ensures (redis.View(), ok) == Resync(redis.client.env, redis.ttl, old(View()))
    {
      ghost var p := View();
      ghost var step := Overwrite(redis.client.env, redis.ttl, p.redis, HighMem, StateAt(p.memory, HighMem));
      for i := 0 to |RESYNCED|
        invariant KeepsOthers(old(redis.client.db), redis.client.db, redis.prefix)
        invariant i == 0 ==> redis.View() == p.redis
        invariant i == 1 ==> (redis.View(), true) == step
        invariant i == 2 ==> step.1 && (redis.View(), true) == Resync(redis.client.env, redis.ttl, p)
      {
        var state := memory.GetState(RESYNCED[i]);
        if state.Err? {
          return false;
        }
        ok := redis.SetState(RESYNCED[i], state.value);
        if !ok {
          return false;
        }
      }
      return true;
    }
  }
}
