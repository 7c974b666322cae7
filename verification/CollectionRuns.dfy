/** Runs of collections, failed readings among them: what they leave in the history and everywhere else. */
module CollectionRuns {
  import opened Model
  import opened Storage
  import opened Fallback
  import opened Monitor
  import opened AlertRuns
  import opened HistoryRuns

  // What reading the system answered, and what the clock showed after that.
  datatype Collection = Collection(reading: Result<Metrics>, clocks: Clocks)

  /** The store, the ledger and the history after a run, from an empty history. */
  ghost function CollectionsAfter(s: Setting, cs: seq<Collection>): (Pair, Ledger, seq<Measurement>) {
    if cs == [] then (Fresh(s.start), s.ledger, []) else
    var (p, l, table) := CollectionsAfter(s, cs[..|cs| - 1]);
    var x := cs[|cs| - 1];
    var (q, l', _) := Collected(s.out, s.ttl, s.lim, p, l, x.reading, x.clocks);
    (q, l', Tabled(s.out, l, table, x.reading))
  }

  /** The inputs of the collections whose reading succeeded. */
  function InputsOf(cs: seq<Collection>): seq<Input> {
    if cs == [] then [] else
    var rest, x := InputsOf(cs[..|cs| - 1]), cs[|cs| - 1];
    if x.reading.Ok? then rest + [Input(x.reading.value, x.clocks)] else rest
  }

  /** A failed reading changes nothing: a run does what its successful readings do alone. */
  lemma {:induction false} FailedReadingsDoNothing(s: Setting, cs: seq<Collection>)
    ensures (CollectionsAfter(s, cs).0, CollectionsAfter(s, cs).1) == PipelineAfter(s, InputsOf(cs))
  {
    if cs != [] {
      var front, x := cs[..|cs| - 1], cs[|cs| - 1];
      FailedReadingsDoNothing(s, front);
      if x.reading.Ok? {
        LastInput(s, InputsOf(front), Input(x.reading.value, x.clocks));
      }
    }
  }

  lemma {:induction false} LastInput(s: Setting, front: seq<Input>, x: Input)
    ensures var (p, l) := PipelineAfter(s, front);
            var (q, l', _) := Cycle(s.out, s.ttl, s.lim, p, l, x.metrics, x.clocks);
            PipelineAfter(s, front + [x]) == (q, l')
  {
    assert (front + [x])[..|front|] == front;
  }

  /** The readings that were saved: those that succeeded and whose insert was not refused, answered or not. */
  ghost function SavedReadings(s: Setting, cs: seq<Collection>): seq<Metrics> {
    if cs == [] then [] else
    var rest, x := SavedReadings(s, cs[..|cs| - 1]), cs[|cs| - 1];
    var inserting := s.out.repository(CollectionsAfter(s, cs[..|cs| - 1]).1.issued);
    if x.reading.Ok? && !inserting.Refused? then rest + [x.reading.value] else rest
  }

  /** As a sequence of inserts with their fates. */
  ghost function SavesOf(s: Setting, cs: seq<Collection>): seq<Save> {
    if cs == [] then [] else
    var rest, x := SavesOf(s, cs[..|cs| - 1]), cs[|cs| - 1];
    if x.reading.Err? then rest
    else rest + [Save(x.reading.value, s.out.repository(CollectionsAfter(s, cs[..|cs| - 1]).1.issued))]
  }

  lemma LastSave(saves: seq<Save>, x: Save)
    ensures TableAfter(saves + [x]) == Appended(TableAfter(saves), x.metrics, x.fate)
    ensures Kept(saves + [x]) == if x.fate.Refused? then Kept(saves) else Kept(saves) + [x.metrics]
  {
    assert (saves + [x])[..|saves|] == saves;
  }

  lemma {:induction false} HistoryIsOfSaves(s: Setting, cs: seq<Collection>)
    ensures CollectionsAfter(s, cs).2 == TableAfter(SavesOf(s, cs))
    ensures SavedReadings(s, cs) == Kept(SavesOf(s, cs))
    ensures forall i :: 0 <= i < |SavesOf(s, cs)| ==>
              exists j :: 0 <= j < |cs| && cs[j].reading == Ok(SavesOf(s, cs)[i].metrics)
  {
    if cs != [] {
      var front, x := cs[..|cs| - 1], cs[|cs| - 1];
      HistoryIsOfSaves(s, front);
      if x.reading.Ok? {
        LastSave(SavesOf(s, front), Save(x.reading.value, s.out.repository(CollectionsAfter(s, front).1.issued)));
      }
      forall i | 0 <= i < |SavesOf(s, cs)|
        ensures exists j :: 0 <= j < |cs| && cs[j].reading == Ok(SavesOf(s, cs)[i].metrics)
      {
        if i < |SavesOf(s, front)| {
          var j :| 0 <= j < |front| && front[j].reading == Ok(SavesOf(s, front)[i].metrics);
          assert cs[j].reading == Ok(SavesOf(s, cs)[i].metrics);
        } else {
          assert cs[|cs| - 1].reading == Ok(SavesOf(s, cs)[i].metrics);
        }
      }
    }
  }

  /**
   After any run of collections, in whatever order a range's rows come: one faithful row for every reading in it that
   was saved, and no other.
   */
  lemma CollectedHistoryIsClose(s: Setting, cs: seq<Collection>, from: int, to: int, rows: seq<HistoryRow>)
    returns (saved: seq<Metrics>)
    requires forall j :: 0 <= j < |cs| && cs[j].reading.Ok? ==> Measured(cs[j].reading.value)
    requires Answers(CollectionsAfter(s, cs).2, from, to, rows)
    ensures multiset(saved) == multiset(SavedBetween(SavedReadings(s, cs), from, to))
    ensures |rows| == |saved| && forall i :: 0 <= i < |rows| ==> Faithful(rows[i], saved[i])
  {
    HistoryIsOfSaves(s, cs);
    saved := HistoryIsClose(SavesOf(s, cs), from, to, rows);
  }
}
