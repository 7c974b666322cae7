/** How far the accounts drift from the table in a run in which writes are carried out and reported lost. */
module LedgerDrift {
  import opened Model
  import opened Storage
  import opened Monitor
  import opened LedgerRuns

  /** Inserts and resolutions carried out with their answers lost. */
  datatype Losses = Losses(inserts: nat, resolutions: nat) {
    function Plus(more: Losses): Losses {
      Losses(inserts + more.inserts, resolutions + more.resolutions)
    }
  }

  const NO_LOSSES := Losses(0, 0)

  /** The loss of one type's part of a cycle, from what is open and the fates of its two commands. */
  ghost function SettleLosses(out: Outside, lim: Limits, l: Ledger, kind: AlertType, c: AlertCondition,
                              n: int): Losses {
    if !out.repository(l.issued).Done? || !out.repository(l.issued + 1).Lost? then NO_LOSSES
    else if Raises(lim, c, n) && !HasOpen(l, kind) then Losses(1, 0)
    else if !Raises(lim, c, n) && Clears(lim, c, n) && HasOpen(l, kind) then Losses(0, 1)
    else NO_LOSSES
  }

  ghost function BookLosses(out: Outside, lim: Limits, l: Ledger, e: Booking): Losses {
    if !out.repository(l.issued).Done? || e.counted.Err? then NO_LOSSES else
    var saved, u, m := l.(issued := l.issued + 1), e.counted.value, e.metrics;
    var cpu := SettleLosses(out, lim, saved, HighCPU, u.cpuCondition, u.cpuCount);
    var (l1, ok) := Settle(out, lim, saved, HighCPU, u.cpuCondition, u.cpuCount, m.cpu, HIGH_CPU_THRESHOLD,
                           e.clocks.cpu);
    if ok then cpu.Plus(SettleLosses(out, lim, l1, HighMem, u.memCondition, u.memCount)) else cpu
  }

  ghost function LossesAfter(out: Outside, lim: Limits, l0: Ledger, entries: seq<Booking>): Losses {
    if entries == [] then NO_LOSSES else
    var front := entries[..|entries| - 1];
    var last := BookLosses(out, lim, LedgerAfter(out, lim, l0, front), entries[|entries| - 1]);
    LossesAfter(out, lim, l0, front).Plus(last)
  }

  /** Between two ledgers the counter lags by the lost inserts, and the gauge is off by the losses of either kind. */
  ghost predicate Drifted(l: Ledger, l': Ledger, losses: Losses) {
    && l'.total - l.total == |l'.rows| - |l.rows| - losses.inserts
    && l'.active - l.active == OpenTotal(l'.rows) - OpenTotal(l.rows) + losses.resolutions - losses.inserts
    && |l'.attempts| - |l.attempts| == 2 * (l'.total - l.total) - (l'.active - l.active)
  }

  lemma CreateDrifts(out: Outside, l: Ledger, kind: AlertType, value: real, threshold: real, now: int)
    requires Supported(kind) && l.nextId !in l.rows
    ensures var lost := out.repository(l.issued).Done? && !HasOpen(l, kind) && out.repository(l.issued + 1).Lost?;
            Drifted(l, CreateIfNeeded(out, l, kind, value, threshold, now).0, if lost then Losses(1, 0) else NO_LOSSES)
  {
    SavedTotals(l.rows, l.nextId, Alert(kind, now, threshold, value, false, None));
  }

  lemma ResolveDrifts(out: Outside, l: Ledger, kind: AlertType, value: real, threshold: real, at: int, now: int)
    requires Supported(kind)
    ensures var lost := out.repository(l.issued).Done? && HasOpen(l, kind) && out.repository(l.issued + 1).Lost?;
            Drifted(l, ResolveIfNeeded(out, l, kind, value, threshold, at, now).0,
                    if lost then Losses(0, 1) else NO_LOSSES)
  {
    if HasOpen(l, kind) {
      ResolvedTotals(l.rows, Choice(Open(l.rows, kind)), at, kind);
    }
  }

  lemma SettleDrifts(out: Outside, lim: Limits, l: Ledger, kind: AlertType, c: AlertCondition, n: int,
                     value: real, threshold: real, clock: Clock)
    requires Supported(kind) && l.nextId !in l.rows
    ensures Drifted(l, Settle(out, lim, l, kind, c, n, value, threshold, clock).0,
                    SettleLosses(out, lim, l, kind, c, n))
  {
    if Raises(lim, c, n) {
      CreateDrifts(out, l, kind, value, threshold, clock.first);
    } else if Clears(lim, c, n) {
      ResolveDrifts(out, l, kind, value, threshold, clock.first, clock.second);
    }
  }

  lemma DriftsAdd(l: Ledger, mid: Ledger, l': Ledger, before: Losses, after: Losses)
    requires Drifted(l, mid, before) && Drifted(mid, l', after)
    ensures Drifted(l, l', before.Plus(after))
  {
  }

  lemma BookDrifts(out: Outside, lim: Limits, l: Ledger, e: Booking)
    requires ValidLedger(l)
    ensures Drifted(l, Booked(out, lim, l, e).0, BookLosses(out, lim, l, e))
  {
    var saved := l.(issued := l.issued + 1);
    if out.repository(l.issued).Done? && e.counted.Ok? {
      var u, m := e.counted.value, e.metrics;
      assert Booked(out, lim, l, e) == Processed(out, lim, saved, m, u, e.clocks);
      SettleDrifts(out, lim, saved, HighCPU, u.cpuCondition, u.cpuCount, m.cpu, HIGH_CPU_THRESHOLD, e.clocks.cpu);
      SettleMoves(out, lim, saved, HighCPU, u.cpuCondition, u.cpuCount, m.cpu, HIGH_CPU_THRESHOLD, e.clocks.cpu);
      var (l1, ok) := Settle(out, lim, saved, HighCPU, u.cpuCondition, u.cpuCount, m.cpu, HIGH_CPU_THRESHOLD,
                             e.clocks.cpu);
      if ok {
        SettleDrifts(out, lim, l1, HighMem, u.memCondition, u.memCount, m.memUsage, HIGH_MEM_THRESHOLD, e.clocks.mem);
        var l2 := Settle(out, lim, l1, HighMem, u.memCondition, u.memCount, m.memUsage, HIGH_MEM_THRESHOLD,
                         e.clocks.mem).0;
        DriftsAdd(saved, l1, l2, SettleLosses(out, lim, saved, HighCPU, u.cpuCondition, u.cpuCount),
                  SettleLosses(out, lim, l1, HighMem, u.memCondition, u.memCount));
      }
    } else {
      assert Booked(out, lim, l, e) == (saved, false);
    }
  }

  /**
   After any run, whatever was lost: the counter lags the rows added by the lost inserts, the gauge differs from the
   change in open alerts by the lost resolutions minus the lost inserts, and there was one attempted notification for
   each creation and each resolution the accounts know of.
   */
  lemma {:induction false} AccountsDrift(out: Outside, lim: Limits, l0: Ledger, entries: seq<Booking>)
    requires ValidLedger(l0)
    ensures Drifted(l0, LedgerAfter(out, lim, l0, entries), LossesAfter(out, lim, l0, entries))
  {
    if entries != [] {
      var front, e := entries[..|entries| - 1], entries[|entries| - 1];
      var l := LedgerAfter(out, lim, l0, front);
      AccountsDrift(out, lim, l0, front);
      AlwaysAtMostOne(out, lim, l0, front);
      BookDrifts(out, lim, l, e);
      DriftsAdd(l0, l, Booked(out, lim, l, e).0, LossesAfter(out, lim, l0, front), BookLosses(out, lim, l, e));
    }
  }
}
