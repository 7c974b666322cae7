/** The alerts table and the measurements table of the SQLite repository. */
module Storage {
  import opened Model

  datatype Alert = Alert(kind: AlertType, at: int, threshold: real, value: real, resolved: bool,
                         resolvedAt: Option<int>)

  type Rows = map<nat, Alert>

  /** The unresolved alerts of one type. */
  function Open(rows: Rows, kind: AlertType): set<nat> {
    set id | id in rows && rows[id].kind == kind && !rows[id].resolved
  }

  function WithResolved(rows: Rows, id: nat, at: int): Rows {
    if id in rows then rows[id := rows[id].(resolved := true, resolvedAt := Some(at))] else rows
  }

  // Sizes are stored as integers.
  datatype Measurement = Measurement(timestamp: int, cpu: real, memUsed: int, memTotal: int, diskUsed: int,
                                     diskTotal: int)

  // The quotient of two floats: 0/0 and x/0 are not numbers a percentage could be.
  datatype Percentage = Percent(value: real) | NotFinite

  datatype HistoryRow = HistoryRow(timestamp: int, cpu: real, memUsed: real, memTotal: real, diskUsed: real,
                                   diskTotal: real,
                                   memUsage: Percentage, diskUsage: Percentage)

  // Conversion of a float to an integer drops the fraction.
  function Truncate(x: real): int {
    if x >= 0.0 then x.Floor else -((-x).Floor)
  }

  /** What is left is the whole number of the same sign nearest to zero's side, less than one away. */
  lemma TruncateMeaning(x: real)
    ensures 0.0 <= x ==> Truncate(x) as real <= x < Truncate(x) as real + 1.0
    ensures x < 0.0 ==> Truncate(x) as real - 1.0 < x <= Truncate(x) as real
  {
  }

  function Recorded(m: Metrics): Measurement {
    Measurement(m.timestamp, m.cpu, Truncate(m.memUsed), Truncate(m.memTotal),
                Truncate(m.diskUsed), Truncate(m.diskTotal))
  }

  function Ratio(used: real, total: real): Percentage {
    if total == 0.0 then NotFinite else Percent(used / total * 100.0)
  }

  function Restored(m: Measurement): HistoryRow {
    HistoryRow(m.timestamp, m.cpu, m.memUsed as real, m.memTotal as real, m.diskUsed as real, m.diskTotal as real,
               Ratio(m.memUsed as real, m.memTotal as real), Ratio(m.diskUsed as real, m.diskTotal as real))
  }

  /** The table after an insert that met a fate. */
  function Appended(rows: seq<Measurement>, m: Metrics, fate: Fate): seq<Measurement> {
    if fate.Refused? then rows else rows + [Recorded(m)]
  }

  /** The rows whose time lies in a range, in the order they were saved. */
  function Between(rows: seq<Measurement>, from: int, to: int): seq<Measurement> {
    if rows == [] then [] else
    var rest, m := Between(rows[..|rows| - 1], from, to), rows[|rows| - 1];
    if from <= m.timestamp <= to then rest + [m] else rest
  }

  function RestoredAll(rows: seq<Measurement>): seq<HistoryRow> {
    seq(|rows|, i requires 0 <= i < |rows| => Restored(rows[i]))
  }

  /** What a query with no order may answer: the rows of a range, restored, in any order. */
  ghost predicate Answers(table: seq<Measurement>, from: int, to: int, rows: seq<HistoryRow>) {
    exists found :: rows == RestoredAll(found) && multiset(found) == multiset(Between(table, from, to))
  }

  /** The same elements in some order. */
  method AnyOrder<T(==)>(s: seq<T>) returns (r: seq<T>)
    ensures multiset(r) == multiset(s)
  {
    var left := multiset(s);
    r := [];
    while left != multiset{}
      invariant multiset(r) + left == multiset(s)
      decreases |left|
    {
      var x :| x in left;
      r, left := r + [x], left - multiset{x};
    }
  }

  /** Some element of a set: the row a query with no order answers. */
  method AnyOf<T(==)>(s: set<T>) returns (x: T)
    requires s != {}
    ensures x in s
  {
    x :| x in s;
  }

  class SQLiteRepository {
    const env: nat -> Fate
    var alerts: Rows
    var nextId: nat
    var measurements: seq<Measurement>
    var issued: nat

    // Identifiers are assigned in increasing order and never used again.
    ghost predicate Valid()
      reads this
    {
      forall id :: id in alerts ==> id < nextId
    }

    constructor (env: nat -> Fate)
      ensures Valid() && this.env == env && alerts == map[] && nextId == 1 && measurements == [] && issued == 0
    {
      this.env := env;
      alerts, nextId, measurements, issued := map[], 1, [], 0;
    }

    method SaveMetrics(m: Metrics) returns (ok: bool)
      modifies this`measurements, this`issued
      ensures issued == old(issued) + 1 && ok == env(old(issued)).Done?
      ensures measurements == Appended(old(measurements), m, env(old(issued)))
    {
      var fate := env(issued);
      issued := issued + 1;
      if !fate.Refused? {
        measurements := measurements + [Recorded(m)];
      }
      ok := fate.Done?;
    }

    // The insert can take effect and the call still fail, when the new identifier cannot be read.
    method SaveAlert(a: Alert) returns (r: Result<nat>)
      requires Valid()
      modifies this`alerts, this`nextId, this`issued
      ensures Valid() && issued == old(issued) + 1
      ensures r == if env(old(issued)).Done? then Ok(old(nextId)) else Err(Unavailable)
      ensures env(old(issued)).Refused? ==> alerts == old(alerts) && nextId == old(nextId)
      ensures !env(old(issued)).Refused? ==> alerts == old(alerts)[old(nextId) := a] && nextId == old(nextId) + 1
    {
      var fate := env(issued);
      issued := issued + 1;
      r := if fate.Done? then Ok(nextId) else Err(Unavailable);
      if !fate.Refused? {
        alerts := alerts[nextId := a];
        nextId := nextId + 1;
      }
    }

    // The query has no ORDER BY: it answers some unresolved row.
    method GetActiveAlert(kind: AlertType) returns (r: Result<Option<nat>>)
      modifies this`issued
      ensures issued == old(issued) + 1 && (r.Ok? <==> env(old(issued)).Done?)
      ensures r.Ok? && r.value.None? ==> Open(alerts, kind) == {}
      ensures r.Ok? && r.value.Some? ==> r.value.value in Open(alerts, kind)
    {
      var fate := env(issued);
      issued := issued + 1;
      if !fate.Done? {
        return Err(Unavailable);
      }
      if Open(alerts, kind) == {} {
        return Ok(None);
      }
      var id := AnyOf(Open(alerts, kind));
      return Ok(Some(id));
    }

    method ResolveAlert(id: nat, at: int) returns (ok: bool)
      requires Valid()
      modifies this`alerts, this`issued
      ensures Valid() && issued == old(issued) + 1 && ok == env(old(issued)).Done?
      ensures alerts == if env(old(issued)).Refused? then old(alerts) else WithResolved(old(alerts), id, at)
      ensures alerts.Keys == old(alerts).Keys
      ensures !env(old(issued)).Refused? && id in old(alerts) ==>
                && alerts[id].resolved && alerts[id].resolvedAt == Some(at)
                && alerts[id].kind == old(alerts)[id].kind && alerts[id].at == old(alerts)[id].at
                && alerts[id].threshold == old(alerts)[id].threshold && alerts[id].value == old(alerts)[id].value
      ensures forall other :: other in old(alerts) && other != id ==> alerts[other] == old(alerts)[other]
    {
      var fate := env(issued);
      issued := issued + 1;
      if !fate.Refused? {
        alerts := WithResolved(alerts, id, at);
      }
      ok := fate.Done?;
    }

    // The query has no ORDER BY: the rows come in any order.
    method GetMetrics(from: int, to: int) returns (r: Result<seq<HistoryRow>>)
      modifies this`issued
      ensures issued == old(issued) + 1
      ensures if env(old(issued)).Done? then r.Ok? && Answers(measurements, from, to, r.value)
              else r == Err(Unavailable)
    {
      var fate := env(issued);
      issued := issued + 1;
      if !fate.Done? {
        return Err(Unavailable);
      }
      var rows := AnyOrder(Between(measurements, from, to));
      var metrics: seq<HistoryRow> := [];
      for i := 0 to |rows|
        invariant metrics == RestoredAll(rows[..i])
      {
        metrics := metrics + [Restored(rows[i])];
      }
      assert rows[..|rows|] == rows;
      return Ok(metrics);
    }
  }
}
