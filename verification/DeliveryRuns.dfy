/** Cycles that push while a worker reads: what the alerts table shows reaches the senders or is still listed. */
module DeliveryRuns {
  import opened Model
  import opened Queue
  import opened Storage
  import opened Monitor
  import opened LedgerRuns
  import opened Delivery

  function PushAll(env: Outcomes, q: QueueState, ns: seq<Notification>): QueueState {
    if ns == [] then q else Pushed(env, PushAll(env, q, ns[..|ns| - 1]), ns[|ns| - 1]).0
  }

  lemma {:induction false} PushAllAppends(env: Outcomes, q: QueueState, ns: seq<Notification>, more: seq<Notification>)
    ensures PushAll(env, PushAll(env, q, ns), more) == PushAll(env, q, ns + more)
  {
    if more == [] {
      assert ns + more == ns;
    } else {
      var front, n := more[..|more| - 1], more[|more| - 1];
      PushAllAppends(env, q, ns, front);
      PushAllEnds(env, PushAll(env, q, ns), front, n);
      PushAllEnds(env, q, ns + front, n);
      assert more == front + [n] && ns + more == ns + front + [n];
    }
  }

  lemma PushAllEnds(env: Outcomes, q: QueueState, ns: seq<Notification>, n: Notification)
    ensures PushAll(env, q, ns + [n]) == Pushed(env, PushAll(env, q, ns), n).0
  {
    assert (ns + [n])[..|ns|] == ns;
  }

  /** A step met another queue: all else is the same, and that queue got what the step attempted to push. */
  ghost predicate SameBut(out: Outside, l: Ledger, q: QueueState, a: Ledger, b: Ledger) {
    && l.attempts <= a.attempts
    && b == a.(queue := PushAll(out.queue, q, a.attempts[|l.attempts|..]))
  }

  lemma NotifyMeets(out: Outside, l: Ledger, q: QueueState, moved: Ledger, n: Notification)
    requires moved.attempts == l.attempts
    ensures SameBut(out, l, q, Notify(out, moved, n), Notify(out, moved.(queue := q), n))
  {
    var a := Notify(out, moved, n);
    assert a.attempts[|l.attempts|..] == [] + [n];
    PushAllEnds(out.queue, q, [], n);
  }

  lemma NothingMeets(out: Outside, l: Ledger, q: QueueState, a: Ledger)
    requires a.attempts == l.attempts
    ensures SameBut(out, l, q, a, a.(queue := q))
  {
    assert a.attempts[|l.attempts|..] == [];
  }

  lemma CreateMeets(out: Outside, l: Ledger, q: QueueState, kind: AlertType, value: real, threshold: real, now: int)
    ensures var (a, ok) := CreateIfNeeded(out, l, kind, value, threshold, now);
            var (b, ok') := CreateIfNeeded(out, l.(queue := q), kind, value, threshold, now);
            SameBut(out, l, q, a, b) && ok == ok'
  {
    var a := CreateIfNeeded(out, l, kind, value, threshold, now).0;
    if out.repository(l.issued).Done? && !HasOpen(l, kind) && out.repository(l.issued + 1).Done? {
      var rows := l.rows[l.nextId := Alert(kind, now, threshold, value, false, None)];
      var saved := l.(rows := rows, nextId := l.nextId + 1, issued := l.issued + 2,
                      total := l.total + 1, active := l.active + 1);
      NotifyMeets(out, l, q, saved, Notification(kind, Created, value, threshold, now));
    } else {
      NothingMeets(out, l, q, a);
    }
  }

  lemma ResolveMeets(out: Outside, l: Ledger, q: QueueState, kind: AlertType, value: real, threshold: real, at: int,
                     now: int)
    ensures var (a, ok) := ResolveIfNeeded(out, l, kind, value, threshold, at, now);
            var (b, ok') := ResolveIfNeeded(out, l.(queue := q), kind, value, threshold, at, now);
            SameBut(out, l, q, a, b) && ok == ok'
  {
    var a := ResolveIfNeeded(out, l, kind, value, threshold, at, now).0;
    if out.repository(l.issued).Done? && HasOpen(l, kind) && out.repository(l.issued + 1).Done? {
      var rows := WithResolved(l.rows, Choice(Open(l.rows, kind)), at);
      var resolved := l.(rows := rows, issued := l.issued + 2, active := l.active - 1);
      NotifyMeets(out, l, q, resolved, Notification(kind, Resolved, value, threshold, now));
    } else {
      NothingMeets(out, l, q, a);
    }
  }

  lemma SettleMeets(out: Outside, lim: Limits, l: Ledger, q: QueueState, kind: AlertType, c: AlertCondition, n: int,
                    value: real, threshold: real, clock: Clock)
    ensures var (a, ok) := Settle(out, lim, l, kind, c, n, value, threshold, clock);
            var (b, ok') := Settle(out, lim, l.(queue := q), kind, c, n, value, threshold, clock);
            SameBut(out, l, q, a, b) && ok == ok'
  {
    if Raises(lim, c, n) {
      CreateMeets(out, l, q, kind, value, threshold, clock.first);
    } else if Clears(lim, c, n) {
      ResolveMeets(out, l, q, kind, value, threshold, clock.first, clock.second);
    } else {
      NothingMeets(out, l, q, l);
    }
  }

  lemma SuffixesJoin(xs: seq<Notification>, ys: seq<Notification>, zs: seq<Notification>)
    requires xs <= ys <= zs
    ensures zs[|xs|..] == ys[|xs|..] + zs[|ys|..]
  {
  }

  lemma Composes(out: Outside, l: Ledger, q: QueueState, a: Ledger, b: Ledger, a': Ledger, b': Ledger)
    requires SameBut(out, l, q, a, b) && SameBut(out, a, b.queue, a', b')
    ensures SameBut(out, l, q, a', b')
  {
    PushAllAppends(out.queue, q, a.attempts[|l.attempts|..], a'.attempts[|a.attempts|..]);
    SuffixesJoin(l.attempts, a.attempts, a'.attempts);
  }

  lemma ProcessMeets(out: Outside, lim: Limits, l: Ledger, q: QueueState, m: Metrics, u: AlertUpdate, clocks: Clocks)
    ensures var (a, ok) := Processed(out, lim, l, m, u, clocks);
            var (b, ok') := Processed(out, lim, l.(queue := q), m, u, clocks);
            SameBut(out, l, q, a, b) && ok == ok'
  {
    SettleMeets(out, lim, l, q, HighCPU, u.cpuCondition, u.cpuCount, m.cpu, HIGH_CPU_THRESHOLD, clocks.cpu);
    var (a, ok) := Settle(out, lim, l, HighCPU, u.cpuCondition, u.cpuCount, m.cpu, HIGH_CPU_THRESHOLD, clocks.cpu);
    var b := a.(queue := PushAll(out.queue, q, a.attempts[|l.attempts|..]));
    if ok {
      SettleMeets(out, lim, a, b.queue, HighMem, u.memCondition, u.memCount, m.memUsage, HIGH_MEM_THRESHOLD,
                  clocks.mem);
      var a' := Settle(out, lim, a, HighMem, u.memCondition, u.memCount, m.memUsage, HIGH_MEM_THRESHOLD, clocks.mem).0;
      var b' := Settle(out, lim, b, HighMem, u.memCondition, u.memCount, m.memUsage, HIGH_MEM_THRESHOLD, clocks.mem).0;
      Composes(out, l, q, a, b, a', b');
    }
  }

  /** A cycle does the same to the table and the accounts whatever the worker has done to the queue. */
  lemma BookMeets(out: Outside, lim: Limits, l: Ledger, q: QueueState, e: Booking)
    ensures var (a, ok) := Booked(out, lim, l, e);
            var (b, ok') := Booked(out, lim, l.(queue := q), e);
            SameBut(out, l, q, a, b) && ok == ok'
  {
    var saved := l.(issued := l.issued + 1);
    if out.repository(l.issued).Done? && e.counted.Ok? {
      assert Booked(out, lim, l, e) == Processed(out, lim, saved, e.metrics, e.counted.value, e.clocks);
      assert Booked(out, lim, l.(queue := q), e)
          == Processed(out, lim, saved.(queue := q), e.metrics, e.counted.value, e.clocks);
      ProcessMeets(out, lim, saved, q, e.metrics, e.counted.value, e.clocks);
    } else {
      NothingMeets(out, l, q, saved);
    }
  }

  /** A turn of the collector or of the worker. */
  datatype Turn = Collected(booking: Booking) | Reading

  ghost function Together(out: Outside, lim: Limits, l0: Ledger, turns: seq<Turn>): Ledger {
    if turns == [] then l0 else
    var l := Together(out, lim, l0, turns[..|turns| - 1]);
    match turns[|turns| - 1]
    case Collected(e) => Booked(out, lim, l, e).0
    case Reading => l.(queue := Popped(out.queue, l.queue).0)
  }

  function BookingsOf(turns: seq<Turn>): seq<Booking> {
    if turns == [] then [] else
    var rest, last := BookingsOf(turns[..|turns| - 1]), turns[|turns| - 1];
    if last.Collected? then rest + [last.booking] else rest
  }

  function Pushes(ns: seq<Notification>): seq<Move> {
    seq(|ns|, i requires 0 <= i < |ns| => Push(ns[i]))
  }

  function PushesOf(moves: seq<Move>): seq<Notification> {
    if moves == [] then [] else
    var rest, last := PushesOf(moves[..|moves| - 1]), moves[|moves| - 1];
    if last.Push? then rest + [last.notification] else rest
  }

  /** What turns do to the queue: the pushes each cycle attempted, and the worker's reads. */
  ghost function MovesOf(out: Outside, lim: Limits, l0: Ledger, turns: seq<Turn>): seq<Move> {
    if turns == [] then [] else
    var front := turns[..|turns| - 1];
    var l, l' := Together(out, lim, l0, front), Together(out, lim, l0, turns);
    MovesOf(out, lim, l0, front)
      + if turns[|turns| - 1].Reading? then [Round]
        else if |l.attempts| <= |l'.attempts| then Pushes(l'.attempts[|l.attempts|..]) else []
  }

  lemma PushAdds(env: Outcomes, moves: seq<Move>, n: Notification)
    ensures PushesOf(moves + [Push(n)]) == PushesOf(moves) + [n]
    ensures PlayAll(env, moves + [Push(n)]).queue == Pushed(env, PlayAll(env, moves).queue, n).0
  {
    assert (moves + [Push(n)])[..|moves|] == moves;
  }

  lemma LastPush(moves: seq<Move>, ns: seq<Notification>)
    requires ns != []
    ensures moves + Pushes(ns) == moves + Pushes(ns[..|ns| - 1]) + [Push(ns[|ns| - 1])]
  {
  }

  lemma {:induction false} PushesAdd(env: Outcomes, moves: seq<Move>, ns: seq<Notification>)
    ensures PushesOf(moves + Pushes(ns)) == PushesOf(moves) + ns
    ensures PlayAll(env, moves + Pushes(ns)).queue == PushAll(env, PlayAll(env, moves).queue, ns)
  {
    if ns == [] {
      assert moves + Pushes(ns) == moves;
    } else {
      var front, n := ns[..|ns| - 1], ns[|ns| - 1];
      PushesAdd(env, moves, front);
      LastPush(moves, ns);
      PushAdds(env, moves + Pushes(front), n);
      assert ns == front + [n];
    }
  }

  lemma RoundAdds(env: Outcomes, moves: seq<Move>)
    ensures PushesOf(moves + [Round]) == PushesOf(moves)
    ensures PlayAll(env, moves + [Round]) == Play(env, PlayAll(env, moves), Round)
  {
    assert (moves + [Round])[..|moves|] == moves;
  }

  /** The collector does as it would alone, and the queue is as the pushes and reads leave it. */
  lemma {:induction false} TogetherIsApart(out: Outside, lim: Limits, l0: Ledger, turns: seq<Turn>)
    requires l0.queue == QueueState([], 0) && l0.attempts == []
    ensures var moves, alone := MovesOf(out, lim, l0, turns), LedgerAfter(out, lim, l0, BookingsOf(turns));
            && Together(out, lim, l0, turns) == alone.(queue := PlayAll(out.queue, moves).queue)
            && PushesOf(moves) == alone.attempts
  {
    if turns != [] {
      var front := turns[..|turns| - 1];
      TogetherIsApart(out, lim, l0, front);
      if turns[|turns| - 1].Reading? {
        RoundAdds(out.queue, MovesOf(out, lim, l0, front));
      } else {
        CollectsApart(out, lim, l0, turns);
      }
    }
  }

  lemma CollectsApart(out: Outside, lim: Limits, l0: Ledger, turns: seq<Turn>)
    requires turns != [] && turns[|turns| - 1].Collected?
    requires var front := turns[..|turns| - 1];
             var moves, alone := MovesOf(out, lim, l0, front), LedgerAfter(out, lim, l0, BookingsOf(front));
             && Together(out, lim, l0, front) == alone.(queue := PlayAll(out.queue, moves).queue)
             && PushesOf(moves) == alone.attempts
    ensures var moves, alone := MovesOf(out, lim, l0, turns), LedgerAfter(out, lim, l0, BookingsOf(turns));
            && Together(out, lim, l0, turns) == alone.(queue := PlayAll(out.queue, moves).queue)
            && PushesOf(moves) == alone.attempts
  {
    var front, e := turns[..|turns| - 1], turns[|turns| - 1].booking;
    var moves, alone := MovesOf(out, lim, l0, front), LedgerAfter(out, lim, l0, BookingsOf(front));
    var q, a := PlayAll(out.queue, moves).queue, Booked(out, lim, alone, e).0;
    assert BookingsOf(turns) == BookingsOf(front) + [e];
    BookingsEnd(out, lim, l0, BookingsOf(front), e);
    BookMeets(out, lim, alone, q, e);
    var more := a.attempts[|alone.attempts|..];
    assert Together(out, lim, l0, turns) == Booked(out, lim, alone.(queue := q), e).0;
    assert MovesOf(out, lim, l0, turns) == moves + Pushes(more);
    PushesAdd(out.queue, moves, more);
    assert alone.attempts + more == a.attempts;
  }

  lemma BookingsEnd(out: Outside, lim: Limits, l0: Ledger, entries: seq<Booking>, e: Booking)
    ensures LedgerAfter(out, lim, l0, entries + [e]) == Booked(out, lim, LedgerAfter(out, lim, l0, entries), e).0
  {
    assert (entries + [e])[..|entries|] == entries;
  }

  /** Some of `b`, in the same order. */
  predicate Subsequence(a: seq<Notification>, b: seq<Notification>) {
    if a == [] then true
    else if b == [] then false
    else
      || Subsequence(a, b[..|b| - 1])
      || (a[|a| - 1] == b[|b| - 1] && Subsequence(a[..|a| - 1], b[..|b| - 1]))
  }

  lemma SubsequenceGrows(a: seq<Notification>, b: seq<Notification>, n: Notification)
    requires Subsequence(a, b)
    ensures Subsequence(a, b + [n]) && Subsequence(a + [n], b + [n])
  {
    assert (b + [n])[..|b|] == b && (a + [n])[..|a|] == a;
  }

  lemma {:induction false} SubsequenceMembers(a: seq<Notification>, b: seq<Notification>, n: Notification)
    requires Subsequence(a, b) && n in a
    ensures n in b
  {
    if Subsequence(a, b[..|b| - 1]) {
      SubsequenceMembers(a, b[..|b| - 1], n);
    } else if n != a[|a| - 1] {
      SubsequenceMembers(a[..|a| - 1], b[..|b| - 1], n);
    }
  }

  lemma {:induction false} AcceptedArePushed(env: Outcomes, moves: seq<Move>)
    ensures Subsequence(PlayAll(env, moves).accepted, PushesOf(moves))
  {
    if moves != [] {
      var front, last := moves[..|moves| - 1], moves[|moves| - 1];
      AcceptedArePushed(env, front);
      if last.Push? {
        SubsequenceGrows(PlayAll(env, front).accepted, PushesOf(front), last.notification);
      }
    }
  }

  /** What the worker's rounds, between any pushes, passed on to every sender. */
  function Offered(env: Outcomes, moves: seq<Move>): (QueueState, seq<Notification>) {
    if moves == [] then (QueueState([], 0), []) else
    var d := Offered(env, moves[..|moves| - 1]);
    match moves[|moves| - 1]
    case Push(n) => (Pushed(env, d.0, n).0, d.1)
    case Round => Passed(env, d)
  }

  /**
   Under any interleaving the senders are offered exactly the non-zero notifications read, in the order of the
   reads.
   */
  lemma {:induction false} OfferedIsConsumed(env: Outcomes, moves: seq<Move>)
    ensures Offered(env, moves) == (PlayAll(env, moves).queue, NonZero(PlayAll(env, moves).consumed))
  {
    if moves != [] {
      var front, last := moves[..|moves| - 1], moves[|moves| - 1];
      OfferedIsConsumed(env, front);
      var s := PlayAll(env, front);
      if last.Round? && s.queue.list != [] {
        NonZeroGrows(s.consumed, s.queue.list[|s.queue.list| - 1]);
      }
    }
  }

  lemma {:induction false} NonZeroIsAll(ns: seq<Notification>)
    requires NO_NOTIFICATION !in ns
    ensures NonZero(ns) == ns
  {
    if ns != [] {
      NonZeroIsAll(ns[..|ns| - 1]);
    }
  }

  /**
   With no write and no answer of the queue lost, under any interleaving of cycles with the worker's reads: the
   attempted notifications of a type are its openings and closings, the accepted ones are some of them in the same
   order, and each accepted one was offered to every sender or is still listed.
   */
  lemma TransitionsAreDelivered(out: Outside, lim: Limits, l0: Ledger, turns: seq<Turn>)
    requires ValidLedger(l0) && l0.attempts == [] && l0.queue == QueueState([], 0)
    requires NoLostWrites(out) && EffectFree(out.queue)
    ensures var l, moves := Together(out, lim, l0, turns), MovesOf(out, lim, l0, turns);
            var accepted := PlayAll(out.queue, moves).accepted;
            && Told(l0, l, HighCPU) && Told(l0, l, HighMem)
            && Subsequence(accepted, l.attempts)
            && multiset(accepted) == multiset(Offered(out.queue, moves).1) + multiset(l.queue.list)
  {
    var moves, alone := MovesOf(out, lim, l0, turns), LedgerAfter(out, lim, l0, BookingsOf(turns));
    var s := PlayAll(out.queue, moves);
    TogetherIsApart(out, lim, l0, turns);
    AccountsBalance(out, lim, l0, BookingsOf(turns));
    AcceptedArePushed(out.queue, moves);
    AcceptedAreDelivered(out.queue, moves);
    OfferedIsConsumed(out.queue, moves);
    AttemptsAreGenuine(out, lim, l0, BookingsOf(turns));
    forall n | n in s.consumed
      ensures n != NO_NOTIFICATION
    {
      assert n in multiset(s.accepted);
      SubsequenceMembers(s.accepted, alone.attempts, n);
    }
    NonZeroIsAll(s.consumed);
  }
}
