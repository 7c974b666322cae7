/** The Redis store of alert states: three keys a type, rewritten by several commands an operation. */
module RedisStore {
  import opened Model
  import opened Redis
  import Decimal

  datatype Field = Condition | Count | Active

  function Suffix(f: Field): string {
    match f
    case Condition => "condition"
    case Count => "count"
    case Active => "active"
  }

  function AlertKey(prefix: string, t: AlertType, suffix: string): Result<string> {
    match t
    case HighCPU => Ok(prefix + "cpu:" + suffix)
    case HighMem => Ok(prefix + "mem:" + suffix)
    case OtherType(_) => Err(InvalidType)
  }

  lemma AlertKeyInjective(prefix: string, t: AlertType, s: string, u: AlertType, r: string)
    requires Supported(t) && Supported(u)
    ensures AlertKey(prefix, t, s) == AlertKey(prefix, u, r) <==> t == u && s == r
  {
    var k, l := AlertKey(prefix, t, s).value, AlertKey(prefix, u, r).value;
    assert k[|prefix| + 4..] == s && l[|prefix| + 4..] == r;
    assert k[|prefix|] == (if t == HighCPU then 'c' else 'm');
    assert l[|prefix|] == (if u == HighCPU then 'c' else 'm');
  }

  /** The six keys by name. */
  lemma KeyNames(prefix: string)
    ensures AlertKey(prefix, HighCPU, Suffix(Condition)) == Ok(prefix + "cpu:condition")
    ensures AlertKey(prefix, HighCPU, Suffix(Count)) == Ok(prefix + "cpu:count")
    ensures AlertKey(prefix, HighCPU, Suffix(Active)) == Ok(prefix + "cpu:active")
    ensures AlertKey(prefix, HighMem, Suffix(Condition)) == Ok(prefix + "mem:condition")
    ensures AlertKey(prefix, HighMem, Suffix(Count)) == Ok(prefix + "mem:count")
    ensures AlertKey(prefix, HighMem, Suffix(Active)) == Ok(prefix + "mem:active")
  {
    Joined(prefix, "cpu:", "condition", "cpu:condition");
    Joined(prefix, "cpu:", "count", "cpu:count");
    Joined(prefix, "cpu:", "active", "cpu:active");
    Joined(prefix, "mem:", "condition", "mem:condition");
    Joined(prefix, "mem:", "count", "mem:count");
    Joined(prefix, "mem:", "active", "mem:active");
  }

  lemma Joined(prefix: string, a: string, b: string, ab: string)
    requires a + b == ab
    ensures prefix + a + b == prefix + ab
  {
  }

  /** The three keys of one type, and of both types with the server's clock: the store without its key strings. */
  datatype Slot = Slot(condition: Cell, count: Cell, active: Cell) {
    function At(f: Field): Cell {
      match f
      case Condition => condition
      case Count => count
      case Active => active
    }

    function With(f: Field, c: Cell): Slot {
      match f
      case Condition => this.(condition := c)
      case Count => this.(count := c)
      case Active => this.(active := c)
    }
  }

  datatype Slots = Slots(cpu: Slot, mem: Slot, now: int, issued: nat) {
    function At(t: AlertType): Slot {
      if t.HighMem? then mem else cpu
    }

    function Put(t: AlertType, s: Slot): Slots {
      if t.HighMem? then this.(mem := s) else this.(cpu := s)
    }
  }

  const EMPTY_SLOT := Slot(None, None, None)

  function NoKeys(start: int): Slots {
    Slots(EMPTY_SLOT, EMPTY_SLOT, start, 0)
  }

  /** One command on one key of a type. */
  function Exec(env: Environment, w: Slots, t: AlertType, f: Field, cmd: Command): (Slots, Result<Reply>) {
    var step := env(w.issued);
    var now := w.now + step.delay;
    var arrived := w.(now := now, issued := w.issued + 1);
    var c := w.At(t).At(f);
    (if step.fate.Refused? then arrived else arrived.Put(t, w.At(t).With(f, Effect(cmd, c, now))),
     if step.fate.Done? then Answer(cmd, c, now) else Err(Unavailable))
  }

  // A missing key reads as the empty string.
  function Shown(r: Reply): string {
    if r.Text? then r.text else ""
  }

  function Bit(active: bool): string {
    if active then "1" else "0"
  }

  /** The condition is the same: one more, and both keys kept for another expiry. */
  function Continue(env: Environment, ttl: nat, w: Slots, t: AlertType): (Slots, Result<int>) {
    var (w1, n) := Exec(env, w, t, Count, Incr);
    if n.Err? then (w1, Err(n.error)) else
    var (w2, kept) := Exec(env, w1, t, Count, Expire(ttl));
    if kept.Err? then (w2, Err(kept.error)) else
    var (w3, kept') := Exec(env, w2, t, Condition, Expire(ttl));
    if kept'.Err? then (w3, Err(kept'.error)) else (w3, Ok(n.value.value))
  }

  /** The condition is another: it is written, and then the count. */
  function Restart(env: Environment, ttl: nat, w: Slots, t: AlertType, c: AlertCondition): (Slots, Result<int>) {
    var (w1, put) := Exec(env, w, t, Condition, Set(c, Some(ttl)));
    if put.Err? then (w1, Err(put.error)) else
    var (w2, put') := Exec(env, w1, t, Count, Set("1", Some(ttl)));
    if put'.Err? then (w2, Err(put'.error)) else (w2, Ok(1))
  }

  function Increment(env: Environment, ttl: nat, w: Slots, t: AlertType, c: AlertCondition): (Slots, Result<int>) {
    if !Supported(t) then (w, Err(InvalidType)) else
    var (w1, seen) := Exec(env, w, t, Condition, Get);
    if seen.Err? then (w1, Err(seen.error))
    else if Shown(seen.value) == c then Continue(env, ttl, w1, t)
    else Restart(env, ttl, w1, t, c)
  }

  function Activity(env: Environment, w: Slots, t: AlertType): (Slots, Result<bool>) {
    if !Supported(t) then (w, Err(InvalidType)) else
    var (w1, seen) := Exec(env, w, t, Active, Get);
    (w1, if seen.Err? then Err(seen.error) else Ok(Shown(seen.value) == "1"))
  }

  function Mark(env: Environment, w: Slots, t: AlertType, active: bool): (Slots, bool) {
    if !Supported(t) then (w, false) else
    var (w1, put) := Exec(env, w, t, Active, Set(Bit(active), None));
    (w1, put.Ok?)
  }

  /** The slot the script leaves. */
  function Image(s: AlertState, now: int, ttl: nat): Slot {
    Slot(Stored(s.condition, now, Some(ttl)),
         Stored(Decimal.PrintInt(s.count), now, Some(ttl)),
         Stored(Bit(s.active), now, None))
  }

  function Overwrite(env: Environment, ttl: nat, w: Slots, t: AlertType, s: AlertState): (Slots, bool) {
    if !Supported(t) then (w, false) else
    var step := env(w.issued);
    var now := w.now + step.delay;
    var arrived := w.(now := now, issued := w.issued + 1);
    (if step.fate.Refused? then arrived else arrived.Put(t, Image(s, now, ttl)), step.fate.Done?)
  }

  function SlotOf(db: map<string, Entry>, prefix: string, t: AlertType): Slot
    requires Supported(t)
  {
    Slot(CellAt(db, AlertKey(prefix, t, Suffix(Condition)).value),
         CellAt(db, AlertKey(prefix, t, Suffix(Count)).value),
         CellAt(db, AlertKey(prefix, t, Suffix(Active)).value))
  }

  /** Changing one key changes one field of one type. */
  lemma KeyFrames(db: map<string, Entry>, prefix: string, t: AlertType, f: Field, c: Cell, u: AlertType)
    requires Supported(t) && Supported(u)
    ensures SlotOf(WithCell(db, AlertKey(prefix, t, Suffix(f)).value, c), prefix, u)
         == if u == t then SlotOf(db, prefix, t).With(f, c) else SlotOf(db, prefix, u)
  {
    forall g: Field {
      AlertKeyInjective(prefix, t, Suffix(f), u, Suffix(g));
    }
    assert Suffix(Condition)[1] == 'o' && Suffix(Count)[1] == 'o' && Suffix(Active)[1] == 'c';
    assert |Suffix(Condition)| != |Suffix(Count)|;
  }

  /** One of the keys a store with the given prefix uses. */
  ghost predicate OfAlerts(prefix: string, key: string) {
    exists t: AlertType, f: Field :: Supported(t) && key == AlertKey(prefix, t, Suffix(f)).value
  }

  /** Keys that are not the store's are as they were. */
  ghost predicate KeepsOthers(before: map<string, Entry>, after: map<string, Entry>, prefix: string) {
    forall key :: !OfAlerts(prefix, key) ==> CellAt(after, key) == CellAt(before, key)
  }

  lemma OwnKey(db: map<string, Entry>, prefix: string, t: AlertType, f: Field, c: Cell)
    requires Supported(t)
    ensures KeepsOthers(db, WithCell(db, AlertKey(prefix, t, Suffix(f)).value, c), prefix)
  {
    assert OfAlerts(prefix, AlertKey(prefix, t, Suffix(f)).value);
  }

  /** The three keys of a type written at once. */
  function WithSlot(db: map<string, Entry>, prefix: string, t: AlertType, s: Slot): map<string, Entry>
    requires Supported(t)
  {
    var db1 := WithCell(db, AlertKey(prefix, t, Suffix(Condition)).value, s.condition);
    var db2 := WithCell(db1, AlertKey(prefix, t, Suffix(Count)).value, s.count);
    WithCell(db2, AlertKey(prefix, t, Suffix(Active)).value, s.active)
  }

  lemma SlotFrames(db: map<string, Entry>, prefix: string, t: AlertType, s: Slot, u: AlertType)
    requires Supported(t) && Supported(u)
    ensures SlotOf(WithSlot(db, prefix, t, s), prefix, u) == if u == t then s else SlotOf(db, prefix, u)
  {
    var db1 := WithCell(db, AlertKey(prefix, t, Suffix(Condition)).value, s.condition);
    var db2 := WithCell(db1, AlertKey(prefix, t, Suffix(Count)).value, s.count);
    KeyFrames(db, prefix, t, Condition, s.condition, u);
    KeyFrames(db1, prefix, t, Count, s.count, u);
    KeyFrames(db2, prefix, t, Active, s.active, u);
  }

  lemma OwnKeys(db: map<string, Entry>, prefix: string, t: AlertType, s: Slot)
    requires Supported(t)
    ensures KeepsOthers(db, WithSlot(db, prefix, t, s), prefix)
  {
    var db1 := WithCell(db, AlertKey(prefix, t, Suffix(Condition)).value, s.condition);
    var db2 := WithCell(db1, AlertKey(prefix, t, Suffix(Count)).value, s.count);
    OwnKey(db, prefix, t, Condition, s.condition);
    OwnKey(db1, prefix, t, Count, s.count);
    OwnKey(db2, prefix, t, Active, s.active);
  }

  class RedisAlertStateStore {
    const client: Client
    const ttl: nat
    const prefix: string

    constructor (client: Client, ttl: nat, prefix: string)
      ensures this.client == client && this.ttl == ttl && this.prefix == prefix
    {
      this.client, this.ttl, this.prefix := client, ttl, prefix;
    }

    ghost function View(): Slots
      reads client
    {
      Slots(SlotOf(client.db, prefix, HighCPU), SlotOf(client.db, prefix, HighMem), client.now, client.issued)
    }

    /** One command on the key of a type and a field. */
    method Do(t: AlertType, f: Field, cmd: Command) returns (r: Result<Reply>)
      requires Supported(t)
      modifies client
      ensures KeepsOthers(old(client.db), client.db, prefix)
      ensures (View(), r) == Exec(client.env, old(View()), t, f, cmd)
    {
      var key := AlertKey(prefix, t, Suffix(f));
      ghost var db := client.db;
      r := client.Do(key.value, cmd);
      ghost var c := Effect(cmd, CellAt(db, key.value), client.now);
      KeyFrames(db, prefix, t, f, c, HighCPU);
      KeyFrames(db, prefix, t, f, c, HighMem);
      OwnKey(db, prefix, t, f, c);
    }

    method IncrementCount(t: AlertType, c: AlertCondition) returns (r: Result<int>)
      modifies client
      ensures KeepsOthers(old(client.db), client.db, prefix)
      ensures (View(), r) == Increment(client.env, ttl, old(View()), t, c)
    {
      if !Supported(t) {
        return Err(InvalidType);
      }
      var seen := Do(t, Condition, Get);
      if seen.Err? {
        return Err(seen.error);
      }
      if Shown(seen.value) == c {
        var n := Do(t, Count, Incr);
        if n.Err? {
          return Err(n.error);
        }
        var kept := Do(t, Count, Expire(ttl));
        if kept.Err? {
          return Err(kept.error);
        }
        kept := Do(t, Condition, Expire(ttl));
        if kept.Err? {
          return Err(kept.error);
        }
        return Ok(n.value.value);
      }
      var put := Do(t, Condition, Set(c, Some(ttl)));
      if put.Err? {
        return Err(put.error);
      }
      put := Do(t, Count, Set("1", Some(ttl)));
      if put.Err? {
        return Err(put.error);
      }
      return Ok(1);
    }

    method IsActive(t: AlertType) returns (r: Result<bool>)
      modifies client
      ensures KeepsOthers(old(client.db), client.db, prefix)
      ensures (View(), r) == Activity(client.env, old(View()), t)
    {
      if !Supported(t) {
        return Err(InvalidType);
      }
      var seen := Do(t, Active, Get);
      if seen.Err? {
        return Err(seen.error);
      }
      return Ok(Shown(seen.value) == "1");
    }

    method SetActive(t: AlertType, active: bool) returns (ok: bool)
      modifies client
      ensures KeepsOthers(old(client.db), client.db, prefix)
      ensures (View(), ok) == Mark(client.env, old(View()), t, active)
    {
      if !Supported(t) {
        return false;
      }
      var put := Do(t, Active, Set(Bit(active), None));
      return put.Ok?;
    }

    method SetState(t: AlertType, s: AlertState) returns (ok: bool)
      modifies client
      ensures KeepsOthers(old(client.db), client.db, prefix)
      ensures (View(), ok) == Overwrite(client.env, ttl, old(View()), t, s)
    {
      if !Supported(t) {
        return false;
      }
      var condition := AlertKey(prefix, t, Suffix(Condition)).value;
      var count := AlertKey(prefix, t, Suffix(Count)).value;
      var active := AlertKey(prefix, t, Suffix(Active)).value;
      ghost var db := client.db;
      ok := client.EvalSetState(condition, count, active,
                                (s.condition, Decimal.PrintInt(s.count), Bit(s.active)), ttl);
      ghost var image := Image(s, client.now, ttl);
      assert client.env(old(client.issued)).fate.Refused? || client.db == WithSlot(db, prefix, t, image);
      OwnKeys(db, prefix, t, image);
      SlotFrames(db, prefix, t, image, HighCPU);
      SlotFrames(db, prefix, t, image, HighMem);
    }
  }
}
