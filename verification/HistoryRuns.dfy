/** How close the stored history stays to what was measured, sizes being cut to integers. */
module HistoryRuns {
  import opened Model
  import opened Storage
  import opened Reals

  predicate Sizes(used: real, total: real) {
    0.0 <= used <= total && 1.0 <= total
  }

  predicate Measured(m: Metrics) {
    Sizes(m.memUsed, m.memTotal) && Sizes(m.diskUsed, m.diskTotal)
  }

  function Distance(x: real, y: real): real {
    if x < y then y - x else x - y
  }

  /** A percentage of cut sizes is a percentage, less than 100/total points away from that of the sizes. */
  predicate CloseRatio(p: Percentage, used: real, total: real)
    requires total > 0.0
  {
    p.Percent? && 0.0 <= p.value <= 100.0 && Distance(p.value, 100.0 * used / total) < 100.0 / total
  }

  lemma CutRatioIsClose(used: real, total: real)
    requires Sizes(used, total)
    ensures 1 <= Truncate(total)
    ensures CloseRatio(Ratio(Truncate(used) as real, Truncate(total) as real), used, total)
  {
    var u, t := Truncate(used) as real, Truncate(total) as real;
    assert u <= used < u + 1.0 && t <= total < t + 1.0 && 1.0 <= t && 0.0 <= u <= t;
    QuotientsClose(u, t, used, total);
    var q := u / t;
    assert 100.0 * used / total == 100.0 * (used / total);
  }

  /** u/t and used/total differ by less than 1/total when both parts were cut by less than one. */
  lemma QuotientsClose(u: real, t: real, used: real, total: real)
    requires 0.0 <= u <= t && 1.0 <= t && u <= used < u + 1.0 && t <= total < t + 1.0
    ensures 0.0 <= u / t <= 1.0
    ensures -100.0 / total < 100.0 * (u / t) - 100.0 * (used / total) < 100.0 / total
  {
    var x, b := u / t, total - t;
    UnitQuotient(u, t);
    ProductShrinks(x, b);
    assert x * total == u + x * b by {
      assert total == t + b;
      assert x * (t + b) == x * t + x * b;
      assert x * t == u;
    }
    DifferenceOfQuotients(x, used, total);
    var d := 100.0 * (x * b - (used - u));
    assert -100.0 < d < 100.0;
    QuotientMonotone(-100.0, d, total);
    QuotientMonotone(d, 100.0, total);
    assert d == 100.0 * (x * total - used);
  }

  lemma DifferenceOfQuotients(x: real, used: real, total: real)
    requires total > 0.0
    ensures 100.0 * x - 100.0 * (used / total) == 100.0 * (x * total - used) / total
  {
    assert x == x * total / total;
    assert (x * total - used) / total == x * total / total - used / total;
  }

  function RecordedAll(ms: seq<Metrics>): seq<Measurement> {
    seq(|ms|, i requires 0 <= i < |ms| => Recorded(ms[i]))
  }

  // An insert of a measurement, and what became of it.
  datatype Save = Save(metrics: Metrics, fate: Fate)

  function TableAfter(saves: seq<Save>): seq<Measurement> {
    if saves == [] then [] else
    var last := saves[|saves| - 1];
    Appended(TableAfter(saves[..|saves| - 1]), last.metrics, last.fate)
  }

  /** The measurements whose insert took effect, answered or not. */
  function Kept(saves: seq<Save>): seq<Metrics> {
    if saves == [] then [] else
    var rest, last := Kept(saves[..|saves| - 1]), saves[|saves| - 1];
    if last.fate.Refused? then rest else rest + [last.metrics]
  }

  lemma {:induction false} TableHoldsKept(saves: seq<Save>)
    ensures TableAfter(saves) == RecordedAll(Kept(saves))
  {
    if saves != [] {
      TableHoldsKept(saves[..|saves| - 1]);
    }
  }

  lemma {:induction false} KeptAreMeasured(saves: seq<Save>)
    requires forall i :: 0 <= i < |saves| ==> Measured(saves[i].metrics)
    ensures forall i :: 0 <= i < |Kept(saves)| ==> Measured(Kept(saves)[i])
  {
    if saves != [] {
      KeptAreMeasured(saves[..|saves| - 1]);
    }
  }

  /** Rows found in another order are the rows of the same measurements in another order. */
  lemma {:induction false} Reordered(ms: seq<Metrics>, found: seq<Measurement>) returns (saved: seq<Metrics>)
    requires multiset(found) == multiset(RecordedAll(ms))
    ensures multiset(saved) == multiset(ms) && RecordedAll(saved) == found
  {
    if ms == [] {
      assert |found| == |multiset(found)| == 0;
      saved := [];
    } else {
      var front, m := ms[..|ms| - 1], ms[|ms| - 1];
      var row := Recorded(m);
      assert ms == front + [m] && RecordedAll(ms) == RecordedAll(front) + [row];
      assert row in multiset(RecordedAll(ms));
      var i :| 0 <= i < |found| && found[i] == row;
      Without(found, i);
      assert multiset(RecordedAll(front)) == multiset(RecordedAll(ms)) - multiset{row};
      var rest := Reordered(front, found[..i] + found[i + 1..]);
      saved := Inserted(rest, m, found, i);
    }
  }

  lemma Without(found: seq<Measurement>, i: nat)
    requires i < |found|
    ensures multiset(found[..i] + found[i + 1..]) == multiset(found) - multiset{found[i]}
  {
    assert found == found[..i] + [found[i]] + found[i + 1..];
  }

  lemma Inserted(rest: seq<Metrics>, m: Metrics, found: seq<Measurement>, i: nat) returns (saved: seq<Metrics>)
    requires i < |found| && found[i] == Recorded(m) && RecordedAll(rest) == found[..i] + found[i + 1..]
    ensures multiset(saved) == multiset(rest + [m]) && RecordedAll(saved) == found
  {
    assert |rest| == |RecordedAll(rest)| == |found| - 1;
    saved := rest[..i] + [m] + rest[i..];
    assert rest == rest[..i] + rest[i..];
    forall j | 0 <= j < |found|
      ensures Recorded(saved[j]) == found[j]
    {
      if j < i {
        assert RecordedAll(rest)[j] == found[j];
      } else if j > i {
        assert RecordedAll(rest)[j - 1] == found[j];
      }
    }
  }

  /** The measurements of a range, as they were saved. */
  function SavedBetween(ms: seq<Metrics>, from: int, to: int): seq<Metrics> {
    if ms == [] then [] else
    var rest, m := SavedBetween(ms[..|ms| - 1], from, to), ms[|ms| - 1];
    if from <= m.timestamp <= to then rest + [m] else rest
  }

  lemma {:induction false} RangeCommutes(ms: seq<Metrics>, from: int, to: int)
    ensures Between(RecordedAll(ms), from, to) == RecordedAll(SavedBetween(ms, from, to))
  {
    if ms != [] {
      RangeCommutes(ms[..|ms| - 1], from, to);
      assert RecordedAll(ms)[..|ms| - 1] == RecordedAll(ms[..|ms| - 1]);
    }
  }

  /** A row read back: time and CPU as saved, sizes cut, percentages close. */
  predicate Faithful(r: HistoryRow, m: Metrics) {
    && r.timestamp == m.timestamp && r.cpu == m.cpu
    && 0.0 <= m.memUsed - r.memUsed < 1.0 && 0.0 <= m.memTotal - r.memTotal < 1.0
    && 0.0 <= m.diskUsed - r.diskUsed < 1.0 && 0.0 <= m.diskTotal - r.diskTotal < 1.0
    && m.memTotal > 0.0 && CloseRatio(r.memUsage, m.memUsed, m.memTotal)
    && m.diskTotal > 0.0 && CloseRatio(r.diskUsage, m.diskUsed, m.diskTotal)
  }

  lemma {:induction false} InRange(ms: seq<Metrics>, from: int, to: int)
    requires forall i :: 0 <= i < |ms| ==> Measured(ms[i])
    ensures forall i :: 0 <= i < |SavedBetween(ms, from, to)| ==>
              Measured(SavedBetween(ms, from, to)[i]) && from <= SavedBetween(ms, from, to)[i].timestamp <= to
  {
    if ms != [] {
      InRange(ms[..|ms| - 1], from, to);
    }
  }

  /**
   The history of a range, in whatever order the rows come: one faithful row for every measurement in it whose insert
   took effect, and no other.
   */
  lemma HistoryIsClose(saves: seq<Save>, from: int, to: int, rows: seq<HistoryRow>) returns (saved: seq<Metrics>)
    requires forall i :: 0 <= i < |saves| ==> Measured(saves[i].metrics)
    requires Answers(TableAfter(saves), from, to, rows)
    ensures multiset(saved) == multiset(SavedBetween(Kept(saves), from, to))
    ensures |rows| == |saved| && forall i :: 0 <= i < |rows| ==> Faithful(rows[i], saved[i])
  {
    var ms := SavedBetween(Kept(saves), from, to);
    TableHoldsKept(saves);
    RangeCommutes(Kept(saves), from, to);
    KeptAreMeasured(saves);
    InRange(Kept(saves), from, to);
    var found :| rows == RestoredAll(found) && multiset(found) == multiset(Between(TableAfter(saves), from, to));
    saved := Reordered(ms, found);
    forall i | 0 <= i < |saved|
      ensures Faithful(rows[i], saved[i])
    {
      assert saved[i] in multiset(ms);
      assert RecordedAll(saved)[i] == found[i];
      RestoredIsFaithful(saved[i]);
    }
  }

  lemma RestoredIsFaithful(m: Metrics)
    requires Measured(m)
    ensures Faithful(Restored(Recorded(m)), m)
  {
    CutRatioIsClose(m.memUsed, m.memTotal);
    CutRatioIsClose(m.diskUsed, m.diskTotal);
  }
}
