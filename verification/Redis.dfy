/**
 The part of a Redis server that the stores rely on: string keys with an optional expiry,
 a clock that moves between commands, and an outcome for every command.
 */
module Redis {
  import opened Model
  import Decimal

  // A key is gone from `expires` on.
  datatype Entry = Entry(text: string, expires: Option<int>)

  type Cell = Option<Entry>

  // What the k-th command meets: how long it takes to arrive, and its outcome.
  datatype Step = Step(delay: nat, fate: Fate)

  type Environment = nat -> Step

  datatype Command = Get | Set(text: string, keep: Option<nat>) | Incr | Expire(ttl: nat)

  datatype Reply = Nil | Text(text: string) | Number(value: int)

  predicate Live(c: Cell, now: int) {
    c.Some? && (c.value.expires.Some? ==> now < c.value.expires.value)
  }

  function Stored(text: string, now: int, keep: Option<nat>): Cell {
    Some(Entry(text, if keep.Some? then Some(now + keep.value) else None))
  }

  // The integer INCR starts from; None when the key holds anything else.
  function Counter(c: Cell, now: int): Option<int> {
    if Live(c, now) then Decimal.ParseInt(c.value.text) else Some(0)
  }

  function Effect(cmd: Command, c: Cell, now: int): Cell {
    match cmd
    case Get => c
    case Set(text, keep) => Stored(text, now, keep)
    case Incr =>
      var n := Counter(c, now);
      if n.None? then c
      else Some(Entry(Decimal.PrintInt(n.value + 1), if Live(c, now) then c.value.expires else None))
    case Expire(ttl) =>
      if Live(c, now) then Some(c.value.(expires := Some(now + ttl))) else c
  }

  function Answer(cmd: Command, c: Cell, now: int): Result<Reply> {
    match cmd
    case Get => Ok(if Live(c, now) then Text(c.value.text) else Nil)
    case Set(_, _) => Ok(Text("OK"))
    case Incr =>
      var n := Counter(c, now);
      if n.None? then Err(Malformed) else Ok(Number(n.value + 1))
    case Expire(_) => Ok(Number(if Live(c, now) then 1 else 0))
  }

  /**
   What the stores rely on: a missing key reads as nil and counts from zero; counting keeps an expiry, and setting
   replaces it; an expiry is put on a key that is there and on no other; and a key is there until its expiry.
   */
  lemma CommandLaws(c: Cell, now: int, text: string, ttl: nat)
    ensures !Live(None, now)
    ensures Live(Stored(text, now, Some(ttl)), now + ttl - 1) && !Live(Stored(text, now, Some(ttl)), now + ttl)
    ensures Live(Stored(text, now, None), now)
    ensures Answer(Get, c, now) == Ok(if Live(c, now) then Text(c.value.text) else Nil)
    ensures !Live(c, now) ==> Answer(Incr, c, now) == Ok(Number(1)) && Effect(Incr, c, now) == Some(Entry("1", None))
    ensures Live(c, now) && Effect(Incr, c, now) != c ==>
              var c' := Effect(Incr, c, now);
              && c'.Some? && c'.value.expires == c.value.expires
              && Decimal.ParseInt(c.value.text).Some?
              && Decimal.ParseInt(c'.value.text) == Some(Decimal.ParseInt(c.value.text).value + 1)
              && Answer(Incr, c, now) == Ok(Number(Decimal.ParseInt(c.value.text).value + 1))
    ensures Live(c, now) && Decimal.ParseInt(c.value.text).None? ==> Answer(Incr, c, now) == Err(Malformed)
    ensures Effect(Set(text, Some(ttl)), c, now) == Some(Entry(text, Some(now + ttl)))
    ensures Effect(Set(text, None), c, now) == Some(Entry(text, None))
    ensures Live(c, now) ==> Effect(Expire(ttl), c, now) == Some(Entry(c.value.text, Some(now + ttl)))
    ensures !Live(c, now) ==> Effect(Expire(ttl), c, now) == c
  {
    assert Decimal.PrintInt(1) == "1";
    var n := Counter(c, now);
    if n.Some? {
      Decimal.IntRoundTrip(n.value + 1);
    }
  }

  function CellAt(db: map<string, Entry>, key: string): Cell {
    if key in db then Some(db[key]) else None
  }

  function WithCell(db: map<string, Entry>, key: string, c: Cell): map<string, Entry> {
    if c.Some? then db[key := c.value] else db - {key}
  }

  /** A connection to the server. `issued` numbers the commands, so `env` fixes one schedule of a whole run. */
  class Client {
    const env: Environment
    var db: map<string, Entry>
    var now: int
    var issued: nat

    constructor (env: Environment, start: int)
      ensures this.env == env && db == map[] && now == start && issued == 0
    {
      this.env := env;
      db, now, issued := map[], start, 0;
    }

    method Do(key: string, cmd: Command) returns (r: Result<Reply>)
      modifies this
      ensures issued == old(issued) + 1 && now == old(now) + env(old(issued)).delay
      ensures db == if env(old(issued)).fate.Refused? then old(db)
                    else WithCell(old(db), key, Effect(cmd, CellAt(old(db), key), now))
      ensures r == if env(old(issued)).fate.Done? then Answer(cmd, CellAt(old(db), key), now) else Err(Unavailable)
    {
      var step := env(issued);
      issued := issued + 1;
      now := now + step.delay;
      var c := CellAt(db, key);
      if !step.fate.Refused? {
        db := WithCell(db, key, Effect(cmd, c, now));
      }
      r := if step.fate.Done? then Answer(cmd, c, now) else Err(Unavailable);
    }

    /** The embedded script: three SETs in one atomic step, the first two with an expiry. */
    method EvalSetState(condition: string, count: string, active: string, texts: (string, string, string), ttl: nat)
      returns (ok: bool)
      modifies this
      ensures issued == old(issued) + 1 && now == old(now) + env(old(issued)).delay
      ensures db == if env(old(issued)).fate.Refused? then old(db)
                    else old(db)[condition := Entry(texts.0, Some(now + ttl))]
                                [count := Entry(texts.1, Some(now + ttl))]
                                [active := Entry(texts.2, None)]
      ensures ok == env(old(issued)).fate.Done?
    {
      var step := env(issued);
      issued := issued + 1;
      now := now + step.delay;
      if !step.fate.Refused? {
        db := db[condition := Entry(texts.0, Some(now + ttl))];
        db := db[count := Entry(texts.1, Some(now + ttl))];
        db := db[active := Entry(texts.2, None)];
      }
      ok := step.fate.Done?;
    }
  }
}
