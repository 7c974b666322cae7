/**
 What every run of cycles keeps about the alerts table and its accounts, whatever the store and the repository
 answer.
 */
module LedgerRuns {
  import opened Model
  import opened Queue
  import opened Storage
  import opened Monitor

  datatype Booking = Booking(metrics: Metrics, counted: Result<AlertUpdate>, clocks: Clocks)

  ghost function Booked(out: Outside, lim: Limits, l: Ledger, e: Booking): (Ledger, bool) {
    Book(out, lim, l, e.metrics, e.counted, e.clocks)
  }

  ghost function LedgerAfter(out: Outside, lim: Limits, l0: Ledger, entries: seq<Booking>): Ledger {
    if entries == [] then l0
    else Booked(out, lim, LedgerAfter(out, lim, l0, entries[..|entries| - 1]), entries[|entries| - 1]).0
  }

  ghost predicate HasOpen(l: Ledger, kind: AlertType) {
    Open(l.rows, kind) != {}
  }

  lemma OpenAfterSave(rows: Rows, id: nat, a: Alert, kind: AlertType)
    requires id !in rows
    ensures Open(rows[id := a], kind) == Open(rows, kind) + if a.kind == kind && !a.resolved then {id} else {}
  {
    var after := Open(rows[id := a], kind);
    assert forall i: nat :: i in after <==> i in Open(rows, kind) + if a.kind == kind && !a.resolved then {id} else {};
  }

  lemma OpenAfterResolve(rows: Rows, id: nat, at: int, kind: AlertType)
    requires id in rows
    ensures Open(WithResolved(rows, id, at), kind) == Open(rows, kind) - {id}
  {
    var after := Open(WithResolved(rows, id, at), kind);
    assert forall i: nat :: i in after <==> i in Open(rows, kind) - {id};
  }

  lemma CreateMoves(out: Outside, l: Ledger, kind: AlertType, value: real, threshold: real, now: int)
    requires ValidLedger(l)
    ensures var (l', ok) := CreateIfNeeded(out, l, kind, value, threshold, now);
            && ValidLedger(l')
            && (forall k :: k != kind ==> Open(l'.rows, k) == Open(l.rows, k))
            && (ok || HasOpen(l, kind) ==> HasOpen(l', kind))
  {
    CreateKeepsOne(out, l, kind, value, threshold, now);
    forall k { OpenAfterSave(l.rows, l.nextId, Alert(kind, now, threshold, value, false, None), k); }
  }

  lemma ResolveMoves(out: Outside, l: Ledger, kind: AlertType, value: real, threshold: real, at: int, now: int)
    requires ValidLedger(l)
    ensures var (l', ok) := ResolveIfNeeded(out, l, kind, value, threshold, at, now);
            && ValidLedger(l')
            && (forall k :: k != kind ==> Open(l'.rows, k) == Open(l.rows, k))
            && (ok || !HasOpen(l, kind) ==> !HasOpen(l', kind))
  {
    ResolveKeepsOne(out, l, kind, value, threshold, at, now);
    if HasOpen(l, kind) {
      var id := Choice(Open(l.rows, kind));
      OpenIsOne(l.rows, kind, id);
      forall k { OpenAfterResolve(l.rows, id, at, k); }
    }
  }

  predicate Raises(lim: Limits, c: AlertCondition, n: int) {
    c == CONDITION_HIGH && n >= lim.trigger
  }

  predicate Clears(lim: Limits, c: AlertCondition, n: int) {
    c == CONDITION_NORMAL && n >= lim.resolve
  }

  // What a step may do to the openness of a type it can raise or clear.
  ghost predicate Moved(l: Ledger, l': Ledger, ok: bool, kind: AlertType, raises: bool, clears: bool) {
    && (ok && raises ==> HasOpen(l', kind))
    && (ok && clears ==> !HasOpen(l', kind))
    && (HasOpen(l', kind) != HasOpen(l, kind) ==> if HasOpen(l', kind) then raises else clears)
  }

  /** How one type's part of a cycle moves the table: open after a long enough high run, closed after a normal one. */
  lemma SettleMoves(out: Outside, lim: Limits, l: Ledger, kind: AlertType, c: AlertCondition, n: int,
                    value: real, threshold: real, clock: Clock)
    requires ValidLedger(l)
    ensures var (l', ok) := Settle(out, lim, l, kind, c, n, value, threshold, clock);
            && ValidLedger(l')
            && (forall k :: k != kind ==> Open(l'.rows, k) == Open(l.rows, k))
            && Moved(l, l', ok, kind, Raises(lim, c, n), Clears(lim, c, n))
  {
    assert CONDITION_HIGH != CONDITION_NORMAL by { assert |CONDITION_HIGH| != |CONDITION_NORMAL|; }
    if Raises(lim, c, n) {
      CreateMoves(out, l, kind, value, threshold, clock.first);
    } else if Clears(lim, c, n) {
      ResolveMoves(out, l, kind, value, threshold, clock.first, clock.second);
    }
  }

  function CountOf(u: AlertUpdate, kind: AlertType): int {
    if kind.HighCPU? then u.cpuCount else u.memCount
  }

  function ConditionIn(u: AlertUpdate, kind: AlertType): AlertCondition {
    if kind.HighCPU? then u.cpuCondition else u.memCondition
  }

  predicate RaisesAlert(lim: Limits, u: AlertUpdate, kind: AlertType) {
    Raises(lim, ConditionIn(u, kind), CountOf(u, kind))
  }

  predicate ClearsAlert(lim: Limits, u: AlertUpdate, kind: AlertType) {
    Clears(lim, ConditionIn(u, kind), CountOf(u, kind))
  }

  lemma ProcessMoves(out: Outside, lim: Limits, l: Ledger, m: Metrics, u: AlertUpdate, clocks: Clocks, kind: AlertType)
    requires ValidLedger(l) && Supported(kind)
    ensures var (l', ok) := Processed(out, lim, l, m, u, clocks);
            ValidLedger(l') && Moved(l, l', ok, kind, RaisesAlert(lim, u, kind), ClearsAlert(lim, u, kind))
  {
    SettleMoves(out, lim, l, HighCPU, u.cpuCondition, u.cpuCount, m.cpu, HIGH_CPU_THRESHOLD, clocks.cpu);
    var (l1, ok) := Settle(out, lim, l, HighCPU, u.cpuCondition, u.cpuCount, m.cpu, HIGH_CPU_THRESHOLD, clocks.cpu);
    if ok {
      SettleMoves(out, lim, l1, HighMem, u.memCondition, u.memCount, m.memUsage, HIGH_MEM_THRESHOLD, clocks.mem);
    }
  }

  /** A cycle opens a type only on a long enough high run and closes it only on a normal one; a completed one must. */
  lemma BookMoves(out: Outside, lim: Limits, l: Ledger, e: Booking, kind: AlertType)
    requires ValidLedger(l) && Supported(kind)
    ensures var (l', ok) := Booked(out, lim, l, e);
            && ValidLedger(l')
            && (ok ==> out.repository(l.issued).Done? && e.counted.Ok?)
            && (ok && RaisesAlert(lim, e.counted.value, kind) ==> HasOpen(l', kind))
            && (ok && ClearsAlert(lim, e.counted.value, kind) ==> !HasOpen(l', kind))
            && (HasOpen(l', kind) != HasOpen(l, kind) ==>
                  && out.repository(l.issued).Done? && e.counted.Ok?
                  && if HasOpen(l', kind) then RaisesAlert(lim, e.counted.value, kind)
                     else ClearsAlert(lim, e.counted.value, kind))
  {
    if out.repository(l.issued).Done? && e.counted.Ok? {
      var saved := l.(issued := l.issued + 1);
      assert HasOpen(saved, kind) == HasOpen(l, kind);
      ProcessMoves(out, lim, saved, e.metrics, e.counted.value, e.clocks, kind);
    }
  }

  /**
   The parts of a cycle in order: the CPU's first, and memory's only if it completed. When the repository does not
   answer what the CPU's part asks first, or the write it then makes, nothing is asked for memory.
   */
  lemma FailureStopsCycle(out: Outside, lim: Limits, l: Ledger, m: Metrics, u: AlertUpdate, clocks: Clocks)
    requires ValidLedger(l) && (RaisesAlert(lim, u, HighCPU) || ClearsAlert(lim, u, HighCPU))
    ensures var (l', ok) := Processed(out, lim, l, m, u, clocks);
            var writes := if RaisesAlert(lim, u, HighCPU) then !HasOpen(l, HighCPU) else HasOpen(l, HighCPU);
            && (!out.repository(l.issued).Done? ==> !ok && l' == l.(issued := l.issued + 1))
            && (out.repository(l.issued).Done? && writes && !out.repository(l.issued + 1).Done? ==>
                  && !ok && l'.issued == l.issued + 2 && l'.attempts == l.attempts && l'.queue == l.queue
                  && Open(l'.rows, HighMem) == Open(l.rows, HighMem))
  {
    assert CONDITION_HIGH != CONDITION_NORMAL by { assert |CONDITION_HIGH| != |CONDITION_NORMAL|; }
    SettleMoves(out, lim, l, HighCPU, u.cpuCondition, u.cpuCount, m.cpu, HIGH_CPU_THRESHOLD, clocks.cpu);
  }

  /** With every repository call answered, a counted cycle completes and does exactly what its counts ask for. */
  lemma AnsweredBook(out: Outside, lim: Limits, l: Ledger, e: Booking, kind: AlertType)
    requires ValidLedger(l) && Supported(kind) && e.counted.Ok?
    requires forall k :: out.repository(k).Done?
    ensures var (l', ok) := Booked(out, lim, l, e);
            && ok
            && (HasOpen(l', kind) <==>
                  if RaisesAlert(lim, e.counted.value, kind) then true
                  else if ClearsAlert(lim, e.counted.value, kind) then false else HasOpen(l, kind))
  {
    BookMoves(out, lim, l, e, kind);
    BookCompletes(out, lim, l, e);
    assert |CONDITION_HIGH| != |CONDITION_NORMAL|;
  }

  lemma BookCompletes(out: Outside, lim: Limits, l: Ledger, e: Booking)
    requires e.counted.Ok? && forall k :: out.repository(k).Done?
    ensures Booked(out, lim, l, e).1
  {
  }

  /** No run leaves two unresolved alerts of one type, whatever fails, before or after taking effect. */
  lemma {:induction false} AlwaysAtMostOne(out: Outside, lim: Limits, l0: Ledger, entries: seq<Booking>)
    requires ValidLedger(l0)
    ensures var l := LedgerAfter(out, lim, l0, entries);
            ValidLedger(l) && forall kind, id :: id in Open(l.rows, kind) ==> Open(l.rows, kind) == {id}
  {
    if entries != [] {
      var front := entries[..|entries| - 1];
      AlwaysAtMostOne(out, lim, l0, front);
      BookMoves(out, lim, LedgerAfter(out, lim, l0, front), entries[|entries| - 1], HighCPU);
    }
    var l := LedgerAfter(out, lim, l0, entries);
    forall kind, id | id in Open(l.rows, kind)
      ensures Open(l.rows, kind) == {id}
    {
      OpenIsOne(l.rows, kind, id);
    }
  }

  /** Whatever failed before, the first completed cycle with a count at its threshold sets the type right. */
  lemma SelfHealing(out: Outside, lim: Limits, l0: Ledger, entries: seq<Booking>, e: Booking, kind: AlertType)
    requires ValidLedger(l0) && Supported(kind)
    requires Booked(out, lim, LedgerAfter(out, lim, l0, entries), e).1
    ensures e.counted.Ok?
    ensures var l := Booked(out, lim, LedgerAfter(out, lim, l0, entries), e).0;
            && (RaisesAlert(lim, e.counted.value, kind) ==> |Open(l.rows, kind)| == 1)
            && (ClearsAlert(lim, e.counted.value, kind) ==> Open(l.rows, kind) == {})
  {
    AlwaysAtMostOne(out, lim, l0, entries);
    var l := Booked(out, lim, LedgerAfter(out, lim, l0, entries), e).0;
    BookMoves(out, lim, LedgerAfter(out, lim, l0, entries), e, kind);
    if HasOpen(l, kind) {
      OpenIsOne(l.rows, kind, Choice(Open(l.rows, kind)));
    }
  }

  function ActionsOf(attempts: seq<Notification>, kind: AlertType): seq<Action> {
    if attempts == [] then [] else
    var rest, n := ActionsOf(attempts[..|attempts| - 1], kind), attempts[|attempts| - 1];
    if n.kind == kind then rest + [n.action] else rest
  }

  /** The actions alternate, and lead from one openness to another. */
  predicate Alternate(actions: seq<Action>, before: bool, after: bool) {
    if actions == [] then before == after else
    var last := actions[|actions| - 1];
    && (after <==> last == Created)
    && Alternate(actions[..|actions| - 1], before, !after)
  }

  /** Neighbouring actions differ, and the first one tells whether the type was open before. */
  lemma {:induction false} AlternateMeaning(actions: seq<Action>, before: bool, after: bool)
    requires Alternate(actions, before, after)
    ensures forall i :: 0 < i < |actions| ==> actions[i] != actions[i - 1]
    ensures actions != [] ==> (actions[0] == Created <==> !before)
    ensures after == if |actions| % 2 == 0 then before else !before
  {
    if actions != [] {
      AlternateMeaning(actions[..|actions| - 1], before, !after);
    }
  }

  /** The pushes that entered the list: all but the refused ones. */
  function Entered(env: Outcomes, from: nat, attempts: seq<Notification>): seq<Notification> {
    if attempts == [] then [] else
    var rest, n := Entered(env, from, attempts[..|attempts| - 1]), attempts[|attempts| - 1];
    if env(from + |attempts| - 1).Refused? then rest else rest + [n]
  }

  function OpenTotal(rows: Rows): nat {
    |Open(rows, HighCPU)| + |Open(rows, HighMem)|
  }

  /** The attempted notifications of a type are exactly its openings and closings since the start. */
  ghost predicate Told(l0: Ledger, l: Ledger, kind: AlertType) {
    Alternate(ActionsOf(l.attempts, kind), HasOpen(l0, kind), HasOpen(l, kind))
  }

  /** The accounts kept since the start: counter, gauge, notifications and queue all tell what happened to the table. */
  ghost predicate Balanced(out: Outside, l0: Ledger, l: Ledger) {
    && l.total - l0.total == |l.rows| - |l0.rows|
    && l.active - l0.active == OpenTotal(l.rows) - OpenTotal(l0.rows)
    && Told(l0, l, HighCPU) && Told(l0, l, HighMem)
    && l.queue.issued == l0.queue.issued + |l.attempts|
    && l.queue.list == l0.queue.list + Entered(out.queue, l0.queue.issued, l.attempts)
  }

  ghost predicate NoLostWrites(out: Outside) {
    forall k :: !out.repository(k).Lost?
  }

  lemma NotifyExtends(out: Outside, l: Ledger, n: Notification, l0: Ledger)
    requires l.queue.issued == l0.queue.issued + |l.attempts|
    requires l.queue.list == l0.queue.list + Entered(out.queue, l0.queue.issued, l.attempts)
    ensures var l' := Notify(out, l, n);
            && l'.queue.issued == l0.queue.issued + |l'.attempts|
            && l'.queue.list == l0.queue.list + Entered(out.queue, l0.queue.issued, l'.attempts)
            && (forall kind :: ActionsOf(l'.attempts, kind)
                                 == ActionsOf(l.attempts, kind) + if n.kind == kind then [n.action] else [])
  {
    var l' := Notify(out, l, n);
    assert l'.attempts[..|l.attempts|] == l.attempts;
    forall kind {
      ActionsGrow(l.attempts, n, kind);
    }
  }

  lemma ActionsGrow(attempts: seq<Notification>, n: Notification, kind: AlertType)
    ensures ActionsOf(attempts + [n], kind) == ActionsOf(attempts, kind) + if n.kind == kind then [n.action] else []
  {
    assert (attempts + [n])[..|attempts|] == attempts;
  }

  // The notification a change of one type calls for.
  ghost function Transition(l: Ledger, l': Ledger, kind: AlertType): seq<Action> {
    if HasOpen(l, kind) == HasOpen(l', kind) then [] else [if HasOpen(l', kind) then Created else Resolved]
  }

  lemma CreateNotifies(out: Outside, l: Ledger, kind: AlertType, value: real, threshold: real, now: int, k: AlertType)
    requires ValidLedger(l) && NoLostWrites(out)
    ensures var l' := CreateIfNeeded(out, l, kind, value, threshold, now).0;
            ActionsOf(l'.attempts, k) == ActionsOf(l.attempts, k) + Transition(l, l', k)
  {
    if out.repository(l.issued).Done? && !HasOpen(l, kind) && out.repository(l.issued + 1).Done? {
      var a, n := Alert(kind, now, threshold, value, false, None), Notification(kind, Created, value, threshold, now);
      var saved := l.(rows := l.rows[l.nextId := a], nextId := l.nextId + 1, issued := l.issued + 2,
                      total := l.total + 1, active := l.active + 1);
      assert CreateIfNeeded(out, l, kind, value, threshold, now) == (Notify(out, saved, n), true);
      OpenAfterSave(l.rows, l.nextId, a, k);
      ActionsGrow(l.attempts, n, k);
    } else {
      var l' := CreateIfNeeded(out, l, kind, value, threshold, now).0;
      assert l' == l.(issued := l'.issued);
    }
  }

  lemma ResolveNotifies(out: Outside, l: Ledger, kind: AlertType, value: real, threshold: real, at: int, now: int,
                        k: AlertType)
    requires ValidLedger(l) && NoLostWrites(out)
    ensures var l' := ResolveIfNeeded(out, l, kind, value, threshold, at, now).0;
            ActionsOf(l'.attempts, k) == ActionsOf(l.attempts, k) + Transition(l, l', k)
  {
    if out.repository(l.issued).Done? && HasOpen(l, kind) && out.repository(l.issued + 1).Done? {
      var id, n := Choice(Open(l.rows, kind)), Notification(kind, Resolved, value, threshold, now);
      var moved := l.(rows := WithResolved(l.rows, id, at), issued := l.issued + 2, active := l.active - 1);
      assert ResolveIfNeeded(out, l, kind, value, threshold, at, now) == (Notify(out, moved, n), true);
      OpenIsOne(l.rows, kind, id);
      OpenAfterResolve(l.rows, id, at, k);
      ActionsGrow(l.attempts, n, k);
    } else {
      var l' := ResolveIfNeeded(out, l, kind, value, threshold, at, now).0;
      assert l' == l.(issued := l'.issued);
    }
  }

  lemma SettleNotifies(out: Outside, lim: Limits, l: Ledger, kind: AlertType, c: AlertCondition, n: int,
                       value: real, threshold: real, clock: Clock, k: AlertType)
    requires ValidLedger(l) && NoLostWrites(out)
    ensures var l' := Settle(out, lim, l, kind, c, n, value, threshold, clock).0;
            ActionsOf(l'.attempts, k) == ActionsOf(l.attempts, k) + Transition(l, l', k)
  {
    if Raises(lim, c, n) {
      CreateNotifies(out, l, kind, value, threshold, clock.first, k);
    } else if Clears(lim, c, n) {
      ResolveNotifies(out, l, kind, value, threshold, clock.first, clock.second, k);
    }
  }

  lemma TransitionsCompose(a: Ledger, b: Ledger, c: Ledger, kind: AlertType)
    requires HasOpen(a, kind) == HasOpen(b, kind) || HasOpen(b, kind) == HasOpen(c, kind)
    ensures Transition(a, b, kind) + Transition(b, c, kind) == Transition(a, c, kind)
  {
  }

  lemma ProcessNotifies(out: Outside, lim: Limits, l: Ledger, m: Metrics, u: AlertUpdate, clocks: Clocks,
                        kind: AlertType)
    requires ValidLedger(l) && NoLostWrites(out)
    ensures var l' := Processed(out, lim, l, m, u, clocks).0;
            ActionsOf(l'.attempts, kind) == ActionsOf(l.attempts, kind) + Transition(l, l', kind)
  {
    SettleMoves(out, lim, l, HighCPU, u.cpuCondition, u.cpuCount, m.cpu, HIGH_CPU_THRESHOLD, clocks.cpu);
    SettleNotifies(out, lim, l, HighCPU, u.cpuCondition, u.cpuCount, m.cpu, HIGH_CPU_THRESHOLD, clocks.cpu, kind);
    var (l1, ok) := Settle(out, lim, l, HighCPU, u.cpuCondition, u.cpuCount, m.cpu, HIGH_CPU_THRESHOLD, clocks.cpu);
    if ok {
      SettleMoves(out, lim, l1, HighMem, u.memCondition, u.memCount, m.memUsage, HIGH_MEM_THRESHOLD, clocks.mem);
      SettleNotifies(out, lim, l1, HighMem, u.memCondition, u.memCount, m.memUsage, HIGH_MEM_THRESHOLD, clocks.mem,
                     kind);
      TransitionsCompose(l, l1, Processed(out, lim, l, m, u, clocks).0, kind);
    }
  }

  /** One for one: a cycle attempts a notification of a type exactly when it opened or closed that type. */
  lemma BookNotifies(out: Outside, lim: Limits, l: Ledger, e: Booking, kind: AlertType)
    requires ValidLedger(l) && NoLostWrites(out)
    ensures var l' := Booked(out, lim, l, e).0;
            ActionsOf(l'.attempts, kind) == ActionsOf(l.attempts, kind) + Transition(l, l', kind)
  {
    var saved := l.(issued := l.issued + 1);
    if out.repository(l.issued).Done? && e.counted.Ok? {
      assert Booked(out, lim, l, e) == Processed(out, lim, saved, e.metrics, e.counted.value, e.clocks);
      ProcessNotifies(out, lim, saved, e.metrics, e.counted.value, e.clocks, kind);
      assert HasOpen(saved, kind) == HasOpen(l, kind);
    }
  }

  lemma AlternateGrows(actions: seq<Action>, before: bool, after: bool, a: Action)
    requires Alternate(actions, before, after) && (a == Created <==> !after)
    ensures Alternate(actions + [a], before, !after)
  {
    assert (actions + [a])[..|actions|] == actions;
  }

  /** A table change with its notification keeps the balance. */
  lemma MoveBalances(out: Outside, l0: Ledger, l: Ledger, moved: Ledger, n: Notification)
    requires Supported(n.kind) && Balanced(out, l0, l)
    requires moved.queue == l.queue && moved.attempts == l.attempts
    requires moved.total - l.total == |moved.rows| - |l.rows|
    requires moved.active - l.active == OpenTotal(moved.rows) - OpenTotal(l.rows)
    requires forall k :: k != n.kind ==> Open(moved.rows, k) == Open(l.rows, k)
    requires HasOpen(moved, n.kind) != HasOpen(l, n.kind) && (n.action == Created <==> HasOpen(moved, n.kind))
    ensures Balanced(out, l0, Notify(out, moved, n))
  {
    NotifyExtends(out, moved, n, l0);
    AlternateGrows(ActionsOf(l.attempts, n.kind), HasOpen(l0, n.kind), HasOpen(l, n.kind), n.action);
    var l' := Notify(out, moved, n);
    assert forall k :: k != n.kind ==> ActionsOf(l'.attempts, k) == ActionsOf(l.attempts, k);
  }

  // Only the command count moved.
  lemma SameBooks(out: Outside, l0: Ledger, l: Ledger, issued: nat)
    ensures Balanced(out, l0, l.(issued := issued)) <==> Balanced(out, l0, l)
  {
    var l' := l.(issued := issued);
    assert forall kind :: HasOpen(l', kind) <==> HasOpen(l, kind);
  }

  lemma SavedTotals(rows: Rows, id: nat, a: Alert)
    requires id !in rows && Supported(a.kind) && !a.resolved
    ensures var rows' := rows[id := a];
            && |rows'| == |rows| + 1 && OpenTotal(rows') == OpenTotal(rows) + 1
            && Open(rows', a.kind) == Open(rows, a.kind) + {id}
            && forall k :: k != a.kind ==> Open(rows', k) == Open(rows, k)
  {
    var rows' := rows[id := a];
    forall k
      ensures Open(rows', k) == if k == a.kind then Open(rows, k) + {id} else Open(rows, k)
    {
      OpenAfterSave(rows, id, a, k);
    }
    assert id !in Open(rows, a.kind);
  }

  lemma ResolvedTotals(rows: Rows, id: nat, at: int, kind: AlertType)
    requires Supported(kind) && id in Open(rows, kind)
    ensures var rows' := WithResolved(rows, id, at);
            && |rows'| == |rows| && OpenTotal(rows') == OpenTotal(rows) - 1
            && Open(rows', kind) == Open(rows, kind) - {id}
            && forall k :: k != kind ==> Open(rows', k) == Open(rows, k)
  {
    var rows' := WithResolved(rows, id, at);
    forall k
      ensures Open(rows', k) == if k == kind then Open(rows, k) - {id} else Open(rows, k)
    {
      OpenAfterResolve(rows, id, at, k);
    }
    assert rows'.Keys == rows.Keys && |rows'| == |rows'.Keys| && |rows| == |rows.Keys|;
  }

  lemma CreateDone(out: Outside, l0: Ledger, l: Ledger, kind: AlertType, value: real, threshold: real, now: int)
    requires Supported(kind) && l.nextId !in l.rows && Balanced(out, l0, l) && !HasOpen(l, kind)
    requires out.repository(l.issued).Done? && out.repository(l.issued + 1).Done?
    ensures Balanced(out, l0, CreateIfNeeded(out, l, kind, value, threshold, now).0)
  {
    var a := Alert(kind, now, threshold, value, false, None);
    var n := Notification(kind, Created, value, threshold, now);
    var moved := l.(rows := l.rows[l.nextId := a], nextId := l.nextId + 1, issued := l.issued + 2,
                    total := l.total + 1, active := l.active + 1);
    assert CreateIfNeeded(out, l, kind, value, threshold, now) == (Notify(out, moved, n), true);
    SavedTotals(l.rows, l.nextId, a);
    MoveBalances(out, l0, l, moved, n);
  }

  /** A creation keeps the accounts exactly when its insert was not carried out with the answer lost. */
  lemma CreateBalances(out: Outside, l0: Ledger, l: Ledger, kind: AlertType, value: real, threshold: real, now: int)
    requires Supported(kind) && ValidLedger(l) && Balanced(out, l0, l)
    ensures Balanced(out, l0, CreateIfNeeded(out, l, kind, value, threshold, now).0) <==>
            !(out.repository(l.issued).Done? && !HasOpen(l, kind) && out.repository(l.issued + 1).Lost?)
  {
    if !out.repository(l.issued).Done? || HasOpen(l, kind) || out.repository(l.issued + 1).Refused? {
      SameBooks(out, l0, l, CreateIfNeeded(out, l, kind, value, threshold, now).0.issued);
    } else if out.repository(l.issued + 1).Done? {
      CreateDone(out, l0, l, kind, value, threshold, now);
    } else {
      SavedTotals(l.rows, l.nextId, Alert(kind, now, threshold, value, false, None));
    }
  }

  lemma ResolveDone(out: Outside, l0: Ledger, l: Ledger, kind: AlertType, value: real, threshold: real, at: int,
                    now: int)
    requires Supported(kind) && AtMostOne(l.rows) && Balanced(out, l0, l) && HasOpen(l, kind)
    requires out.repository(l.issued).Done? && out.repository(l.issued + 1).Done?
    ensures Balanced(out, l0, ResolveIfNeeded(out, l, kind, value, threshold, at, now).0)
  {
    var id, n := Choice(Open(l.rows, kind)), Notification(kind, Resolved, value, threshold, now);
    var moved := l.(rows := WithResolved(l.rows, id, at), issued := l.issued + 2, active := l.active - 1);
    assert ResolveIfNeeded(out, l, kind, value, threshold, at, now) == (Notify(out, moved, n), true);
    OpenIsOne(l.rows, kind, id);
    ResolvedTotals(l.rows, id, at, kind);
    MoveBalances(out, l0, l, moved, n);
  }

  lemma ResolveBalances(out: Outside, l0: Ledger, l: Ledger, kind: AlertType, value: real, threshold: real, at: int,
                        now: int)
    requires Supported(kind) && ValidLedger(l) && Balanced(out, l0, l)
    ensures Balanced(out, l0, ResolveIfNeeded(out, l, kind, value, threshold, at, now).0) <==>
            !(out.repository(l.issued).Done? && HasOpen(l, kind) && out.repository(l.issued + 1).Lost?)
  {
    if !out.repository(l.issued).Done? || !HasOpen(l, kind) || out.repository(l.issued + 1).Refused? {
      SameBooks(out, l0, l, ResolveIfNeeded(out, l, kind, value, threshold, at, now).0.issued);
    } else if out.repository(l.issued + 1).Done? {
      ResolveDone(out, l0, l, kind, value, threshold, at, now);
    } else {
      ResolvedTotals(l.rows, Choice(Open(l.rows, kind)), at, kind);
    }
  }

  lemma SettleBalances(out: Outside, lim: Limits, l0: Ledger, l: Ledger, kind: AlertType, c: AlertCondition, n: int,
                       value: real, threshold: real, clock: Clock)
    requires Supported(kind) && ValidLedger(l) && Balanced(out, l0, l) && NoLostWrites(out)
    ensures Balanced(out, l0, Settle(out, lim, l, kind, c, n, value, threshold, clock).0)
  {
    if Raises(lim, c, n) {
      CreateBalances(out, l0, l, kind, value, threshold, clock.first);
    } else if Clears(lim, c, n) {
      ResolveBalances(out, l0, l, kind, value, threshold, clock.first, clock.second);
    }
  }

  lemma ProcessBalances(out: Outside, lim: Limits, l0: Ledger, l: Ledger, m: Metrics, u: AlertUpdate, clocks: Clocks)
    requires ValidLedger(l) && Balanced(out, l0, l) && NoLostWrites(out)
    ensures Balanced(out, l0, Processed(out, lim, l, m, u, clocks).0)
  {
    SettleBalances(out, lim, l0, l, HighCPU, u.cpuCondition, u.cpuCount, m.cpu, HIGH_CPU_THRESHOLD, clocks.cpu);
    SettleMoves(out, lim, l, HighCPU, u.cpuCondition, u.cpuCount, m.cpu, HIGH_CPU_THRESHOLD, clocks.cpu);
    var (l1, ok) := Settle(out, lim, l, HighCPU, u.cpuCondition, u.cpuCount, m.cpu, HIGH_CPU_THRESHOLD, clocks.cpu);
    if ok {
      SettleBalances(out, lim, l0, l1, HighMem, u.memCondition, u.memCount, m.memUsage, HIGH_MEM_THRESHOLD, clocks.mem);
    }
  }

  lemma BookBalances(out: Outside, lim: Limits, l0: Ledger, l: Ledger, e: Booking)
    requires ValidLedger(l) && Balanced(out, l0, l) && NoLostWrites(out)
    ensures Balanced(out, l0, Booked(out, lim, l, e).0)
  {
    var saved := l.(issued := l.issued + 1);
    if out.repository(l.issued).Done? && e.counted.Ok? {
      assert Booked(out, lim, l, e) == Processed(out, lim, saved, e.metrics, e.counted.value, e.clocks);
      SameBooks(out, l0, l, l.issued + 1);
      ProcessBalances(out, lim, l0, saved, e.metrics, e.counted.value, e.clocks);
    } else {
      assert Booked(out, lim, l, e) == (saved, false);
      SameBooks(out, l0, l, l.issued + 1);
    }
  }

  /**
   Conservation: with no write carried out and then reported lost, the accounts agree with the table after any run.
   */
  lemma {:induction false} AccountsBalance(out: Outside, lim: Limits, l0: Ledger, entries: seq<Booking>)
    requires ValidLedger(l0) && l0.attempts == [] && NoLostWrites(out)
    ensures Balanced(out, l0, LedgerAfter(out, lim, l0, entries))
  {
    if entries != [] {
      var front := entries[..|entries| - 1];
      AccountsBalance(out, lim, l0, front);
      AlwaysAtMostOne(out, lim, l0, front);
      BookBalances(out, lim, l0, LedgerAfter(out, lim, l0, front), entries[|entries| - 1]);
    }
  }

  predicate Genuine(attempts: seq<Notification>) {
    forall i :: 0 <= i < |attempts| ==>
      Supported(attempts[i].kind) && attempts[i].action != NoAction && attempts[i] != NO_NOTIFICATION
  }

  lemma SettleIsGenuine(out: Outside, lim: Limits, l: Ledger, kind: AlertType, c: AlertCondition, n: int,
                        value: real, threshold: real, clock: Clock)
    requires Genuine(l.attempts) && Supported(kind)
    ensures Genuine(Settle(out, lim, l, kind, c, n, value, threshold, clock).0.attempts)
  {
  }

  lemma BookIsGenuine(out: Outside, lim: Limits, l: Ledger, e: Booking)
    requires Genuine(l.attempts)
    ensures Genuine(Booked(out, lim, l, e).0.attempts)
  {
    if out.repository(l.issued).Done? && e.counted.Ok? {
      var u, m := e.counted.value, e.metrics;
      var saved := l.(issued := l.issued + 1);
      SettleIsGenuine(out, lim, saved, HighCPU, u.cpuCondition, u.cpuCount, m.cpu, HIGH_CPU_THRESHOLD, e.clocks.cpu);
      var l1 := Settle(out, lim, saved, HighCPU, u.cpuCondition, u.cpuCount, m.cpu, HIGH_CPU_THRESHOLD, e.clocks.cpu).0;
      SettleIsGenuine(out, lim, l1, HighMem, u.memCondition, u.memCount, m.memUsage, HIGH_MEM_THRESHOLD, e.clocks.mem);
    }
  }

  /** No notification of the pipeline is mistaken for the empty queue's. */
  lemma {:induction false} AttemptsAreGenuine(out: Outside, lim: Limits, l0: Ledger, entries: seq<Booking>)
    requires l0.attempts == []
    ensures Genuine(LedgerAfter(out, lim, l0, entries).attempts)
  {
    if entries != [] {
      AttemptsAreGenuine(out, lim, l0, entries[..|entries| - 1]);
      BookIsGenuine(out, lim, LedgerAfter(out, lim, l0, entries[..|entries| - 1]), entries[|entries| - 1]);
    }
  }
}
