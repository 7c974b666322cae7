/** What the rows and notifications of a run say, told by the readings that caused them. */
module AlertDetails {
  import opened Model
  import opened Storage
  import opened Monitor
  import opened LedgerRuns
  import opened AlertRuns

  // What a cycle reads for one type: the measured value, the threshold, and the clock once or twice.
  datatype Told = Told(kind: AlertType, value: real, threshold: real, first: int, second: int)

  function ToldBy(x: Input, kind: AlertType): Told {
    if kind.HighCPU? then Told(HighCPU, x.metrics.cpu, 80.0, x.clocks.cpu.first, x.clocks.cpu.second)
    else Told(HighMem, x.metrics.memUsage, 90.0, x.clocks.mem.first, x.clocks.mem.second)
  }

  /** A row created by a reading above the threshold. */
  predicate CreatedBy(a: Alert, t: Told) {
    a.kind == t.kind && a.value == t.value && a.threshold == t.threshold && a.at == t.first && t.value > t.threshold
  }

  /** A row resolved by a reading not above the threshold. */
  predicate ResolvedBy(a: Alert, t: Told) {
    a.kind == t.kind && a.resolved && a.resolvedAt == Some(t.first) && t.value <= t.threshold
  }

  predicate SameDetails(a: Alert, b: Alert) {
    a.kind == b.kind && a.value == b.value && a.threshold == b.threshold && a.at == b.at
  }

  predicate CreatedNote(n: Notification, t: Told) {
    && n.kind == t.kind && n.action == Created && n.value == t.value && n.threshold == t.threshold && n.at == t.first
    && t.value > t.threshold
  }

  predicate ResolvedNote(n: Notification, t: Told) {
    && n.kind == t.kind && n.action == Resolved && n.value == t.value && n.threshold == t.threshold && n.at == t.second
    && t.value <= t.threshold
  }

  /** One row more, unresolved, as the reading tells it. */
  predicate Opens(rows: Rows, rows': Rows, t: Told, id: nat) {
    && id !in rows && rows'.Keys == rows.Keys + {id} && (forall other :: other in rows ==> rows'[other] == rows[other])
    && CreatedBy(rows'[id], t) && !rows'[id].resolved && rows'[id].resolvedAt == None
  }

  /** One open row resolved at the time the reading tells, its other details kept. */
  predicate Closes(rows: Rows, rows': Rows, t: Told, id: nat) {
    && id in rows && rows'.Keys == rows.Keys
    && (forall other :: other in rows && other != id ==> rows'[other] == rows[other])
    && !rows[id].resolved && SameDetails(rows'[id], rows[id]) && ResolvedBy(rows'[id], t)
  }

  ghost predicate LostWithin(out: Outside, from: nat, to: nat) {
    exists k :: from <= k < to && out.repository(k).Lost?
  }

  /** Either the one notification was attempted, or none was and an answer of the repository was lost. */
  ghost predicate Notified(out: Outside, l: Ledger, l': Ledger) {
    |l'.attempts| == |l.attempts| + 1 || (l'.attempts == l.attempts && LostWithin(out, l.issued, l'.issued))
  }

  /** One type's part of a cycle: nothing, an opening or a closing, each with its notification. */
  ghost predicate PartDoes(out: Outside, l: Ledger, l': Ledger, t: Told) {
    && l.attempts <= l'.attempts && l.issued <= l'.issued
    && ((l'.rows == l.rows && l'.attempts == l.attempts)
        || (exists id :: Opens(l.rows, l'.rows, t, id) && Notified(out, l, l')
              && forall n :: n in l'.attempts[|l.attempts|..] ==> CreatedNote(n, t))
        || (exists id :: Closes(l.rows, l'.rows, t, id) && Notified(out, l, l')
              && forall n :: n in l'.attempts[|l.attempts|..] ==> ResolvedNote(n, t)))
  }

  /** A cycle does the CPU's part and then memory's, as its input tells them. */
  ghost predicate CycleDoes(out: Outside, l: Ledger, l': Ledger, x: Input) {
    exists mid :: PartDoes(out, l, mid, ToldBy(x, HighCPU)) && PartDoes(out, mid, l', ToldBy(x, HighMem))
  }

  lemma NothingDone(out: Outside, l: Ledger, l': Ledger, t: Told)
    requires l'.rows == l.rows && l'.attempts == l.attempts && l.issued <= l'.issued
    ensures PartDoes(out, l, l', t)
  {
  }

  lemma CreateDoes(out: Outside, l: Ledger, t: Told)
    requires l.nextId !in l.rows && t.value > t.threshold
    ensures PartDoes(out, l, CreateIfNeeded(out, l, t.kind, t.value, t.threshold, t.first).0, t)
  {
    var l' := CreateIfNeeded(out, l, t.kind, t.value, t.threshold, t.first).0;
    if !out.repository(l.issued).Done? || HasOpen(l, t.kind) || out.repository(l.issued + 1).Refused? {
      NothingDone(out, l, l', t);
    } else {
      assert Opens(l.rows, l'.rows, t, l.nextId);
      if out.repository(l.issued + 1).Lost? {
        assert LostWithin(out, l.issued, l'.issued);
      }
    }
  }

  lemma ResolveDoes(out: Outside, l: Ledger, t: Told)
    requires t.value <= t.threshold
    ensures PartDoes(out, l, ResolveIfNeeded(out, l, t.kind, t.value, t.threshold, t.first, t.second).0, t)
  {
    var l' := ResolveIfNeeded(out, l, t.kind, t.value, t.threshold, t.first, t.second).0;
    if !out.repository(l.issued).Done? || !HasOpen(l, t.kind) || out.repository(l.issued + 1).Refused? {
      NothingDone(out, l, l', t);
    } else {
      assert Closes(l.rows, l'.rows, t, Choice(Open(l.rows, t.kind)));
      if out.repository(l.issued + 1).Lost? {
        assert LostWithin(out, l.issued, l'.issued);
      }
    }
  }

  lemma SettleDoes(out: Outside, lim: Limits, l: Ledger, t: Told, n: int)
    requires l.nextId !in l.rows
    ensures PartDoes(out, l, Settle(out, lim, l, t.kind, ConditionOf(t.value, t.threshold), n, t.value, t.threshold,
                                    Clock(t.first, t.second)).0, t)
  {
    assert |CONDITION_HIGH| != |CONDITION_NORMAL|;
    var c := ConditionOf(t.value, t.threshold);
    if Raises(lim, c, n) {
      CreateDoes(out, l, t);
    } else if Clears(lim, c, n) {
      ResolveDoes(out, l, t);
    } else {
      NothingDone(out, l, l, t);
    }
  }

  lemma ProcessDoes(out: Outside, lim: Limits, l: Ledger, x: Input, u: AlertUpdate)
    requires ValidLedger(l)
    requires u.cpuCondition == Sampled(x.metrics, HighCPU) && u.memCondition == Sampled(x.metrics, HighMem)
    ensures CycleDoes(out, l, Processed(out, lim, l, x.metrics, u, x.clocks).0, x)
  {
    var m := x.metrics;
    var (mid, ok) := Settle(out, lim, l, HighCPU, u.cpuCondition, u.cpuCount, m.cpu, HIGH_CPU_THRESHOLD, x.clocks.cpu);
    SettleDoes(out, lim, l, ToldBy(x, HighCPU), u.cpuCount);
    if ok {
      SettleMoves(out, lim, l, HighCPU, u.cpuCondition, u.cpuCount, m.cpu, HIGH_CPU_THRESHOLD, x.clocks.cpu);
      SettleDoes(out, lim, mid, ToldBy(x, HighMem), u.memCount);
    } else {
      NothingDone(out, mid, mid, ToldBy(x, HighMem));
    }
  }

  lemma IssuedDoes(out: Outside, l: Ledger, saved: Ledger, l': Ledger, x: Input)
    requires saved == l.(issued := saved.issued) && l.issued <= saved.issued && CycleDoes(out, saved, l', x)
    ensures CycleDoes(out, l, l', x)
  {
    var mid :| PartDoes(out, saved, mid, ToldBy(x, HighCPU)) && PartDoes(out, mid, l', ToldBy(x, HighMem));
    assert LostWithin(out, saved.issued, mid.issued) ==> LostWithin(out, l.issued, mid.issued);
    assert PartDoes(out, l, mid, ToldBy(x, HighCPU));
  }

  /** In any run, the last cycle's row changes and attempted notifications are those its own input tells. */
  lemma {:induction false} EveryCycleDoes(s: Setting, inputs: seq<Input>)
    requires inputs != [] && ValidLedger(s.ledger)
    ensures CycleDoes(s.out, PipelineAfter(s, inputs[..|inputs| - 1]).1, PipelineAfter(s, inputs).1,
                      inputs[|inputs| - 1])
  {
    var front, x := inputs[..|inputs| - 1], inputs[|inputs| - 1];
    var (p, l) := PipelineAfter(s, front);
    var r := Updated(s.out.redis, s.ttl, p, x.metrics).1;
    var saved := l.(issued := l.issued + 1);
    if s.out.repository(l.issued).Done? && r.Ok? {
      assert PipelineAfter(s, inputs).1 == Processed(s.out, s.lim, saved, x.metrics, r.value, x.clocks).0;
      LedgerStaysValid(s, front);
      ProcessDoes(s.out, s.lim, saved, x, r.value);
      IssuedDoes(s.out, l, saved, PipelineAfter(s, inputs).1, x);
    } else {
      assert PipelineAfter(s, inputs).1 == saved;
      NothingDone(s.out, l, saved, ToldBy(x, HighCPU));
      NothingDone(s.out, saved, saved, ToldBy(x, HighMem));
    }
  }

  /** Some input before the k-th tells that a row was created. */
  ghost predicate CreatedBefore(inputs: seq<Input>, k: nat, a: Alert) {
    exists j :: 0 <= j < k && j < |inputs| && CreatedBy(a, ToldBy(inputs[j], a.kind))
  }

  ghost predicate CreatedIn(inputs: seq<Input>, a: Alert) {
    CreatedBefore(inputs, |inputs|, a)
  }

  /** Some input tells that a row was resolved, and that it was created before that. */
  ghost predicate ResolvedIn(inputs: seq<Input>, a: Alert) {
    exists k :: 0 <= k < |inputs| && ResolvedBy(a, ToldBy(inputs[k], a.kind)) && CreatedBefore(inputs, k, a)
  }

  /** A row of the run's own: created by one input, and resolved by a later one or not at all. */
  ghost predicate RowTold(inputs: seq<Input>, a: Alert) {
    if a.resolved then ResolvedIn(inputs, a) else CreatedIn(inputs, a) && a.resolvedAt == None
  }

  /** A row from before the run: as it was, or resolved by one input. */
  ghost predicate OldRowTold(inputs: seq<Input>, before: Alert, a: Alert) {
    a == before || (!before.resolved && SameDetails(a, before)
                    && exists k :: 0 <= k < |inputs| && ResolvedBy(a, ToldBy(inputs[k], a.kind)))
  }

  ghost predicate RowsTold(inputs: seq<Input>, rows0: Rows, rows: Rows) {
    && (forall id :: id in rows0 ==> id in rows && OldRowTold(inputs, rows0[id], rows[id]))
    && (forall id :: id in rows && id !in rows0 ==> RowTold(inputs, rows[id]))
  }

  lemma LaterToo(front: seq<Input>, x: Input, before: Alert, a: Alert)
    ensures RowTold(front, a) ==> RowTold(front + [x], a)
    ensures OldRowTold(front, before, a) ==> OldRowTold(front + [x], before, a)
    ensures CreatedIn(front, a) ==> CreatedBefore(front + [x], |front|, a)
  {
    var inputs := front + [x];
    if CreatedIn(front, a) {
      var j :| 0 <= j < |front| && CreatedBy(a, ToldBy(front[j], a.kind));
      assert inputs[j] == front[j];
    }
    if ResolvedIn(front, a) {
      var k :| 0 <= k < |front| && ResolvedBy(a, ToldBy(front[k], a.kind)) && CreatedBefore(front, k, a);
      var j :| 0 <= j < k && CreatedBy(a, ToldBy(front[j], a.kind));
      assert inputs[j] == front[j] && inputs[k] == front[k];
      assert CreatedBefore(inputs, k, a);
    }
    if OldRowTold(front, before, a) && a != before {
      var k :| 0 <= k < |front| && ResolvedBy(a, ToldBy(front[k], a.kind));
      assert inputs[k] == front[k];
    }
  }

  // The rows after part of the last cycle: told by the inputs before it, or by it.
  lemma PartTells(out: Outside, front: seq<Input>, x: Input, rows0: Rows, l: Ledger, l': Ledger, kind: AlertType)
    requires Supported(kind) && PartDoes(out, l, l', ToldBy(x, kind)) && RowsTold(front + [x], rows0, l.rows)
    requires forall id :: id in l.rows && id !in rows0 && l.rows[id].kind == kind ==> RowTold(front, l.rows[id])
    requires forall id :: id in rows0 && l.rows[id].kind == kind ==> OldRowTold(front, rows0[id], l.rows[id])
    ensures RowsTold(front + [x], rows0, l'.rows)
  {
    var inputs, t := front + [x], ToldBy(x, kind);
    assert inputs[|front|] == x;
    if id :| Opens(l.rows, l'.rows, t, id) {
      assert CreatedBy(l'.rows[id], ToldBy(inputs[|front|], kind));
    } else if id :| Closes(l.rows, l'.rows, t, id) {
      var a, a' := l.rows[id], l'.rows[id];
      LaterToo(front, x, a, a);
      assert ResolvedBy(a', ToldBy(inputs[|front|], kind));
      if id !in rows0 {
        assert CreatedBefore(inputs, |front|, a);
        SameCreation(inputs, |front|, a, a');
      }
    }
  }

  lemma SameCreation(inputs: seq<Input>, k: nat, a: Alert, a': Alert)
    requires SameDetails(a', a) && CreatedBefore(inputs, k, a)
    ensures CreatedBefore(inputs, k, a')
  {
    var j :| 0 <= j < k && j < |inputs| && CreatedBy(a, ToldBy(inputs[j], a.kind));
    assert CreatedBy(a', ToldBy(inputs[j], a'.kind));
  }

  lemma OtherRowsKept(out: Outside, l: Ledger, l': Ledger, t: Told)
    requires PartDoes(out, l, l', t)
    ensures forall id :: id in l'.rows && l'.rows[id].kind != t.kind ==> id in l.rows && l'.rows[id] == l.rows[id]
  {
  }

  lemma CycleTells(out: Outside, front: seq<Input>, x: Input, rows0: Rows, l: Ledger, l': Ledger)
    requires CycleDoes(out, l, l', x) && RowsTold(front, rows0, l.rows)
    ensures RowsTold(front + [x], rows0, l'.rows)
  {
    var mid :| PartDoes(out, l, mid, ToldBy(x, HighCPU)) && PartDoes(out, mid, l', ToldBy(x, HighMem));
    RowsToldLater(front, x, rows0, l.rows);
    PartTells(out, front, x, rows0, l, mid, HighCPU);
    OtherRowsKept(out, l, mid, ToldBy(x, HighCPU));
    PartTells(out, front, x, rows0, mid, l', HighMem);
  }

  lemma RowsToldLater(front: seq<Input>, x: Input, rows0: Rows, rows: Rows)
    requires RowsTold(front, rows0, rows)
    ensures RowsTold(front + [x], rows0, rows)
  {
    forall id | id in rows {
      LaterToo(front, x, if id in rows0 then rows0[id] else rows[id], rows[id]);
    }
  }

  /**
   After any run, whatever failed: a row of the run's own shows exactly the value, threshold and time of the input that
   created it and, if resolved, the time of a later input that was not above the threshold; a row from before it is as
   it was, or was open and shows the time of such an input, its other details kept.
   */
  lemma {:induction false} RowsTell(s: Setting, inputs: seq<Input>)
    requires ValidLedger(s.ledger)
    ensures RowsTold(inputs, s.ledger.rows, PipelineAfter(s, inputs).1.rows)
  {
    if inputs != [] {
      var front, x := inputs[..|inputs| - 1], inputs[|inputs| - 1];
      RowsTell(s, front);
      EveryCycleDoes(s, inputs);
      CycleTells(s.out, front, x, s.ledger.rows, PipelineAfter(s, front).1, PipelineAfter(s, inputs).1);
      assert inputs == front + [x];
    }
  }

  /** A notification tells an input's reading, and there is a row that shows the same. */
  ghost predicate NoteTold(inputs: seq<Input>, rows0: Rows, rows: Rows, n: Notification) {
    exists j :: 0 <= j < |inputs| && NoteToldBy(ToldBy(inputs[j], n.kind), rows0, rows, n)
  }

  ghost predicate NoteToldBy(t: Told, rows0: Rows, rows: Rows, n: Notification) {
    || (CreatedNote(n, t) && exists id :: id in rows && id !in rows0 && CreatedBy(rows[id], t))
    || (ResolvedNote(n, t) && exists id :: id in rows && ResolvedBy(rows[id], t))
  }

  ghost predicate NotesTold(inputs: seq<Input>, l0: Ledger, l: Ledger) {
    && l0.attempts <= l.attempts
    && forall i :: |l0.attempts| <= i < |l.attempts| ==> NoteTold(inputs, l0.rows, l.rows, l.attempts[i])
  }

  // Rows of a run keep what created them, and what resolved them once it has.
  predicate Carried(rows: Rows, rows': Rows) {
    forall id :: id in rows ==>
      id in rows' && SameDetails(rows'[id], rows[id]) && (rows[id].resolved ==> rows'[id] == rows[id])
  }

  lemma PartCarries(out: Outside, l: Ledger, l': Ledger, t: Told)
    requires PartDoes(out, l, l', t)
    ensures Carried(l.rows, l'.rows)
  {
  }

  lemma CarriedNote(t: Told, rows0: Rows, rows: Rows, rows': Rows, n: Notification)
    requires NoteToldBy(t, rows0, rows, n) && Carried(rows, rows')
    ensures NoteToldBy(t, rows0, rows', n)
  {
    if id :| id in rows && id !in rows0 && CreatedBy(rows[id], t) {
      assert CreatedBy(rows'[id], t);
    }
    if id :| id in rows && ResolvedBy(rows[id], t) {
      assert ResolvedBy(rows'[id], t);
    }
  }

  lemma PartNotes(out: Outside, inputs: seq<Input>, l0: Ledger, l: Ledger, l': Ledger, kind: AlertType)
    requires inputs != [] && Supported(kind) && NotesTold(inputs, l0, l) && l0.rows.Keys <= l.rows.Keys
    requires PartDoes(out, l, l', ToldBy(inputs[|inputs| - 1], kind))
    ensures NotesTold(inputs, l0, l') && l0.rows.Keys <= l'.rows.Keys
  {
    var t := ToldBy(inputs[|inputs| - 1], kind);
    PartCarries(out, l, l', t);
    forall i | |l0.attempts| <= i < |l'.attempts|
      ensures NoteTold(inputs, l0.rows, l'.rows, l'.attempts[i])
    {
      var n := l'.attempts[i];
      if i < |l.attempts| {
        assert n == l.attempts[i];
        var j :| 0 <= j < |inputs| && NoteToldBy(ToldBy(inputs[j], n.kind), l0.rows, l.rows, n);
        CarriedNote(ToldBy(inputs[j], n.kind), l0.rows, l.rows, l'.rows, n);
      } else {
        assert n in l'.attempts[|l.attempts|..] by { assert l'.attempts[|l.attempts|..][i - |l.attempts|] == n; }
        NewNote(out, l0, l, l', t, n);
      }
    }
  }

  lemma NewNote(out: Outside, l0: Ledger, l: Ledger, l': Ledger, t: Told, n: Notification)
    requires PartDoes(out, l, l', t) && n in l'.attempts[|l.attempts|..] && l0.rows.Keys <= l.rows.Keys
    ensures NoteToldBy(t, l0.rows, l'.rows, n) && n.kind == t.kind
  {
    if id :| Opens(l.rows, l'.rows, t, id) && forall n :: n in l'.attempts[|l.attempts|..] ==> CreatedNote(n, t) {
      assert CreatedBy(l'.rows[id], t);
    } else {
      var id :| Closes(l.rows, l'.rows, t, id) && forall n :: n in l'.attempts[|l.attempts|..] ==> ResolvedNote(n, t);
      assert ResolvedBy(l'.rows[id], t);
    }
  }

  lemma NotesToldLater(front: seq<Input>, x: Input, l0: Ledger, l: Ledger)
    requires NotesTold(front, l0, l)
    ensures NotesTold(front + [x], l0, l)
  {
    forall i | |l0.attempts| <= i < |l.attempts|
      ensures NoteTold(front + [x], l0.rows, l.rows, l.attempts[i])
    {
      var n := l.attempts[i];
      var j :| 0 <= j < |front| && NoteToldBy(ToldBy(front[j], n.kind), l0.rows, l.rows, n);
      assert (front + [x])[j] == front[j];
    }
  }

  /**
   After any run: every attempted notification tells exactly the value, threshold and time of an input, above the
   threshold if it announces a creation and not above it otherwise; and there is a row that was created, or resolved,
   by that same input.
   */
  lemma {:induction false} NotesTell(s: Setting, inputs: seq<Input>)
    requires ValidLedger(s.ledger)
    ensures NotesTold(inputs, s.ledger, PipelineAfter(s, inputs).1)
    ensures s.ledger.rows.Keys <= PipelineAfter(s, inputs).1.rows.Keys
  {
    if inputs != [] {
      var front, x := inputs[..|inputs| - 1], inputs[|inputs| - 1];
      var l, l' := PipelineAfter(s, front).1, PipelineAfter(s, inputs).1;
      assert inputs == front + [x];
      NotesTell(s, front);
      EveryCycleDoes(s, inputs);
      NotesToldLater(front, x, s.ledger, l);
      var mid :| PartDoes(s.out, l, mid, ToldBy(x, HighCPU)) && PartDoes(s.out, mid, l', ToldBy(x, HighMem));
      PartNotes(s.out, inputs, s.ledger, l, mid, HighCPU);
      PartNotes(s.out, inputs, s.ledger, mid, l', HighMem);
    }
  }
}
