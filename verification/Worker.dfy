/** The worker that drains the queue into the senders, and what reaches them under any interleaving with the pushes. */
module Delivery {
  import opened Model
  import opened Queue

  class Sender {
    const outcomes: nat -> bool
    var offered: seq<Notification>
    var sent: seq<Notification>

    constructor (outcomes: nat -> bool)
      ensures this.outcomes == outcomes && offered == sent == []
    {
      this.outcomes := outcomes;
      offered, sent := [], [];
    }

    method Send(n: Notification) returns (ok: bool)
      modifies this
      ensures ok == outcomes(|old(offered)|) && offered == old(offered) + [n]
      ensures sent == if ok then old(sent) + [n] else old(sent)
    {
      ok := outcomes(|offered|);
      offered := offered + [n];
      if ok {
        sent := sent + [n];
      }
    }
  }

  /** One round on a queue and what was passed on before: an empty notification is not passed on. */
  function Passed(env: Outcomes, d: (QueueState, seq<Notification>)): (QueueState, seq<Notification>) {
    var (q, r) := Popped(env, d.0);
    (q, if r.Ok? && r.value != NO_NOTIFICATION then d.1 + [r.value] else d.1)
  }

  /** The queue after some rounds of the worker, and the notifications it passed on. */
  function Drained(env: Outcomes, q: QueueState, rounds: nat): (QueueState, seq<Notification>) {
    if rounds == 0 then (q, []) else Passed(env, Drained(env, q, rounds - 1))
  }

  function Copies(n: Notification, k: nat): seq<Notification> {
    seq(k, _ => n)
  }

  /** What a sender registered `k` times is offered of some notifications: each of them `k` times, in order. */
  function Repeated(ns: seq<Notification>, k: nat): seq<Notification> {
    if ns == [] then [] else Repeated(ns[..|ns| - 1], k) + Copies(ns[|ns| - 1], k)
  }

  lemma RepeatedGrows(before: seq<Notification>, ns: seq<Notification>, n: Notification, k: nat)
    ensures before + Repeated(ns, k) + Copies(n, k) == before + Repeated(ns + [n], k)
  {
    assert (ns + [n])[..|ns|] == ns;
  }

  /** A sender registered once is offered the notifications themselves. */
  lemma {:induction false} RepeatedOnce(ns: seq<Notification>)
    ensures Repeated(ns, 1) == ns
  {
    if ns != [] {
      RepeatedOnce(ns[..|ns| - 1]);
      assert ns[..|ns| - 1] + Copies(ns[|ns| - 1], 1) == ns;
    }
  }

  class Worker {
    const queue: RedisNotificationQueue
    const senders: seq<Sender>

    constructor (queue: RedisNotificationQueue, senders: seq<Sender>)
      ensures this.queue == queue && this.senders == senders
    {
      this.queue, this.senders := queue, senders;
    }

    /** The loop up to the cancellation of its context, which comes after `rounds` reads of the queue. */
    method Run(rounds: nat)
      modifies queue, set s | s in senders
      ensures queue.View() == Drained(queue.env, old(queue.View()), rounds).0
      ensures forall s | s in senders ::
                s.offered == old(s.offered)
                             + Repeated(Drained(queue.env, old(queue.View()), rounds).1, multiset(senders)[s])
    {
      ghost var q := queue.View();
      var round := 0;
      while round < rounds
        invariant round <= rounds
        invariant queue.View() == Drained(queue.env, q, round).0
        invariant forall s | s in senders ::
                    s.offered == old(s.offered) + Repeated(Drained(queue.env, q, round).1, multiset(senders)[s])
      {
        ghost var before := Drained(queue.env, q, round);
        var r := Next();
        round := round + 1;
        assert Drained(queue.env, q, round) == Passed(queue.env, before);
        if r.Err? || r.value == NO_NOTIFICATION {
          continue;
        }
        assert Drained(queue.env, q, round).1 == before.1 + [r.value];
        Pass(r.value);
        forall s | s in senders {
          RepeatedGrows(old(s.offered), before.1, r.value, multiset(senders)[s]);
        }
      }
    }

    method Next() returns (r: Result<Notification>)
      modifies queue
      ensures (queue.View(), r) == Popped(queue.env, old(queue.View()))
    {
      r := queue.Consume();
    }

    /** Every sender is offered the notification, whether or not the senders before it failed. */
    method Pass(n: Notification)
      modifies set s | s in senders
      ensures forall s | s in senders :: s.offered == old(s.offered) + Copies(n, multiset(senders)[s])
    {
      for i := 0 to |senders|
        invariant forall s | s in senders :: s.offered == old(s.offered) + Copies(n, multiset(senders[..i])[s])
      {
        assert senders[..i + 1] == senders[..i] + [senders[i]];
        var _ := senders[i].Send(n);
      }
      assert senders[..|senders|] == senders;
    }
  }

  /** A push or a round of the worker; `Scene` is the queue with all that entered, was accepted, read and dropped. */
  datatype Move = Push(notification: Notification) | Round

  datatype Scene = Scene(queue: QueueState, entered: seq<Notification>, accepted: seq<Notification>,
                         consumed: seq<Notification>, dropped: seq<Notification>)

  function Play(env: Outcomes, s: Scene, move: Move): Scene {
    match move
    case Push(n) =>
      var (q, ok) := Pushed(env, s.queue, n);
      s.(queue := q,
         entered := if env(s.queue.issued).Refused? then s.entered else s.entered + [n],
         accepted := if ok then s.accepted + [n] else s.accepted)
    case Round =>
      var (q, r) := Popped(env, s.queue);
      if q.list == s.queue.list then s.(queue := q) else
      var top := s.queue.list[|s.queue.list| - 1];
      if r.Ok? then s.(queue := q, consumed := s.consumed + [top]) else s.(queue := q, dropped := s.dropped + [top])
  }

  function PlayAll(env: Outcomes, moves: seq<Move>): Scene {
    if moves == [] then Scene(QueueState([], 0), [], [], [], [])
    else Play(env, PlayAll(env, moves[..|moves| - 1]), moves[|moves| - 1])
  }

  /**
   In any run, a read answers an error exactly when its command is not answered, and the zero notification exactly
   when it is answered and the list is empty or has a zero notification on top.
   */
  lemma ReadAnswers(env: Outcomes, moves: seq<Move>)
    ensures var q := PlayAll(env, moves).queue;
            var r := Popped(env, q).1;
            && (r.Err? <==> !env(q.issued).Done?)
            && (r == Ok(NO_NOTIFICATION) <==>
                  env(q.issued).Done? && (q.list == [] || q.list[|q.list| - 1] == NO_NOTIFICATION))
            && (r.Ok? && q.list != [] ==> r.value == q.list[|q.list| - 1])
  {
  }

  ghost predicate EffectFree(env: Outcomes) {
    forall k :: !env(k).Lost?
  }

  ghost predicate Conserved(s: Scene) {
    multiset(s.entered) == multiset(s.consumed) + multiset(s.dropped) + multiset(s.queue.list)
  }

  lemma PlayConserves(env: Outcomes, s: Scene, move: Move)
    requires Conserved(s)
    ensures Conserved(Play(env, s, move))
  {
    if move.Round? && s.queue.list != [] {
      RoundConserves(env, s);
    }
  }

  lemma RoundConserves(env: Outcomes, s: Scene)
    requires Conserved(s) && s.queue.list != []
    ensures Conserved(Play(env, s, Round))
  {
    var list := s.queue.list;
    var rest, top := list[..|list| - 1], list[|list| - 1];
    assert list == rest + [top];
    assert multiset(list) == multiset(rest) + multiset{top};
    assert multiset(s.consumed + [top]) == multiset(s.consumed) + multiset{top};
    assert multiset(s.dropped + [top]) == multiset(s.dropped) + multiset{top};
  }

  /** Nothing is invented or duplicated: what entered was read, was dropped by a lost answer, or is still listed. */
  lemma {:induction false} QueueConserves(env: Outcomes, moves: seq<Move>)
    ensures Conserved(PlayAll(env, moves))
  {
    if moves != [] {
      QueueConserves(env, moves[..|moves| - 1]);
      PlayConserves(env, PlayAll(env, moves[..|moves| - 1]), moves[|moves| - 1]);
    }
  }

  /** With no answer lost, accepted pushes are exactly those read or still listed. */
  lemma {:induction false} AcceptedAreDelivered(env: Outcomes, moves: seq<Move>)
    requires EffectFree(env)
    ensures var s := PlayAll(env, moves);
            && s.accepted == s.entered && s.dropped == []
            && multiset(s.accepted) == multiset(s.consumed) + multiset(s.queue.list)
  {
    if moves != [] {
      AcceptedAreDelivered(env, moves[..|moves| - 1]);
    }
    QueueConserves(env, moves);
  }

  /** Every push finds the list empty. */
  predicate OneAtATime(env: Outcomes, moves: seq<Move>) {
    moves != [] ==>
      && OneAtATime(env, moves[..|moves| - 1])
      && (moves[|moves| - 1].Push? ==> PlayAll(env, moves[..|moves| - 1]).queue.list == [])
  }

  /** Then notifications are read in the order they were pushed. */
  lemma {:induction false} OneAtATimeKeepsOrder(env: Outcomes, moves: seq<Move>)
    requires EffectFree(env) && OneAtATime(env, moves)
    ensures var s := PlayAll(env, moves); s.accepted == s.consumed + s.queue.list && |s.queue.list| <= 1
  {
    if moves != [] {
      OneAtATimeKeepsOrder(env, moves[..|moves| - 1]);
    }
  }

  /** Every round that takes a notification finds no other listed. */
  predicate SingleReads(env: Outcomes, moves: seq<Move>) {
    moves != [] ==>
      var s := PlayAll(env, moves[..|moves| - 1]);
      && SingleReads(env, moves[..|moves| - 1])
      && (moves[|moves| - 1].Round? && !env(s.queue.issued).Refused? ==> |s.queue.list| <= 1)
  }

  predicate Distinct(ns: seq<Notification>) {
    forall i, j :: 0 <= i < j < |ns| ==> ns[i] != ns[j]
  }

  lemma {:induction false} SingleReadsKeepOrder(env: Outcomes, moves: seq<Move>)
    requires EffectFree(env) && SingleReads(env, moves)
    ensures InOrder(PlayAll(env, moves))
  {
    if moves != [] {
      SingleReadsKeepOrder(env, moves[..|moves| - 1]);
      SingleReadKeepsOrder(env, PlayAll(env, moves[..|moves| - 1]), moves[|moves| - 1]);
    }
  }

  /** What was accepted is what was read followed by what is listed. */
  predicate InOrder(s: Scene) {
    s.accepted == s.consumed + s.queue.list
  }

  lemma SingleReadKeepsOrder(env: Outcomes, s: Scene, move: Move)
    requires EffectFree(env) && InOrder(s)
    requires move.Round? && !env(s.queue.issued).Refused? ==> |s.queue.list| <= 1
    ensures InOrder(Play(env, s, move))
  {
    if move.Round? && s.queue.list != [] && !env(s.queue.issued).Refused? {
      assert s.queue.list == [s.queue.list[0]] && s.queue.list[..0] == [];
    }
  }

  /** One more read keeps the order only if it takes the sole listed notification. */
  lemma OrderedReadIsSingle(s: Scene, top: Notification)
    requires InOrder(s) && Distinct(s.accepted)
    requires s.queue.list != [] && top == s.queue.list[|s.queue.list| - 1]
    requires s.consumed + [top] <= s.accepted
    ensures |s.queue.list| == 1
  {
    var k, n := |s.consumed|, |s.accepted|;
    assert s.accepted[k] == (s.consumed + [top])[k] == top;
    assert s.accepted[n - 1] == top;
  }

  lemma PlayGrows(env: Outcomes, s: Scene, move: Move)
    requires EffectFree(env)
    ensures var s' := Play(env, s, move);
            && s.accepted <= s'.accepted && s.consumed <= s'.consumed
            && (move.Push? ==> s'.consumed == s.consumed)
            && (move.Round? ==> s'.accepted == s.accepted)
            && (move.Round? && !env(s.queue.issued).Refused? && s.queue.list != [] ==>
                  s'.consumed == s.consumed + [s.queue.list[|s.queue.list| - 1]])
  {
  }

  /**
   The list is a stack, so distinct notifications are read in the order of their pushes exactly when each is read
   alone.
   */
  lemma {:induction false} InOrderIff(env: Outcomes, moves: seq<Move>)
    requires EffectFree(env) && Distinct(PlayAll(env, moves).accepted)
    ensures var s := PlayAll(env, moves); s.consumed <= s.accepted <==> SingleReads(env, moves)
  {
    if SingleReads(env, moves) {
      SingleReadsKeepOrder(env, moves);
    }
    if moves != [] && PlayAll(env, moves).consumed <= PlayAll(env, moves).accepted {
      var front, move := moves[..|moves| - 1], moves[|moves| - 1];
      var s := PlayAll(env, front);
      PlayGrows(env, s, move);
      AcceptedAreDelivered(env, front);
      assert |s.accepted| == |s.consumed| + |s.queue.list| by {
        assert |s.accepted| == |multiset(s.accepted)|;
      }
      InOrderIff(env, front);
      SingleReadsKeepOrder(env, front);
      if move.Round? && !env(s.queue.issued).Refused? && s.queue.list != [] {
        OrderedReadIsSingle(s, s.queue.list[|s.queue.list| - 1]);
      }
    }
  }

  /** Notifications newest first, without the empty ones. */
  function Backwards(ns: seq<Notification>): seq<Notification> {
    if ns == [] then [] else
    var later := Backwards(ns[1..]);
    if ns[0] == NO_NOTIFICATION then later else later + [ns[0]]
  }

  lemma {:induction false} BackwardsAt(ns: seq<Notification>, i: nat)
    requires i < |ns| && NO_NOTIFICATION !in ns
    ensures |Backwards(ns)| == |ns| && Backwards(ns)[|ns| - 1 - i] == ns[i]
  {
    if |ns| > 1 {
      BackwardsAt(ns[1..], if i == 0 then 0 else i - 1);
    }
  }

  function NonZero(ns: seq<Notification>): seq<Notification> {
    if ns == [] then [] else
    var rest, n := NonZero(ns[..|ns| - 1]), ns[|ns| - 1];
    if n == NO_NOTIFICATION then rest else rest + [n]
  }

  lemma NonZeroGrows(ns: seq<Notification>, n: Notification)
    ensures NonZero(ns + [n]) == if n == NO_NOTIFICATION then NonZero(ns) else NonZero(ns) + [n]
  {
    assert (ns + [n])[..|ns|] == ns;
  }

  /** Otherwise the newest goes first: a worker that finds `ns` on top of a list reads them backwards. */
  lemma {:induction false} DrainReverses(env: Outcomes, q: QueueState, rest: seq<Notification>, ns: seq<Notification>)
    requires q.list == rest + ns
    requires forall j :: q.issued <= j < q.issued + |ns| ==> env(j).Done?
    ensures Drained(env, q, |ns|) == (QueueState(rest, q.issued + |ns|), Backwards(ns))
    decreases |ns|
  {
    if ns == [] {
      assert q.list == rest;
    } else {
      Regrouped(rest, ns);
      DrainReverses(env, q, rest + [ns[0]], ns[1..]);
      DrainsOneMore(env, q, rest, ns[0], |ns| - 1, Backwards(ns[1..]));
    }
  }

  lemma Regrouped(rest: seq<Notification>, ns: seq<Notification>)
    requires ns != []
    ensures rest + ns == rest + [ns[0]] + ns[1..]
  {
  }

  lemma DrainsOneMore(env: Outcomes, q: QueueState, rest: seq<Notification>, n: Notification, k: nat,
                      passed: seq<Notification>)
    requires Drained(env, q, k) == (QueueState(rest + [n], q.issued + k), passed) && env(q.issued + k).Done?
    ensures Drained(env, q, k + 1)
         == (QueueState(rest, q.issued + k + 1), if n == NO_NOTIFICATION then passed else passed + [n])
  {
    assert Drained(env, q, k + 1) == Passed(env, Drained(env, q, k));
    PassesLast(env, rest, n, q.issued + k, passed);
  }

  lemma PassesLast(env: Outcomes, rest: seq<Notification>, n: Notification, issued: nat, passed: seq<Notification>)
    requires env(issued).Done?
    ensures Passed(env, (QueueState(rest + [n], issued), passed))
         == (QueueState(rest, issued + 1), if n == NO_NOTIFICATION then passed else passed + [n])
  {
    var list := rest + [n];
    assert list[..|list| - 1] == rest;
  }

  /** Between two scenes only rounds went by: they left the queue and passed on the notifications given. */
  predicate PassedOn(s: Scene, s': Scene, d: (QueueState, seq<Notification>)) {
    && s' == s.(queue := d.0, consumed := s'.consumed, dropped := s'.dropped)
    && NonZero(s'.consumed) == NonZero(s.consumed) + d.1
  }

  lemma RoundPassesOn(env: Outcomes, s: Scene, mid: Scene, d: (QueueState, seq<Notification>))
    requires PassedOn(s, mid, d)
    ensures PassedOn(s, Play(env, mid, Round), Passed(env, d))
  {
    if d.0.list != [] {
      NonZeroGrows(mid.consumed, d.0.list[|d.0.list| - 1]);
    }
  }

  function PlayRounds(env: Outcomes, s: Scene, k: nat): Scene {
    if k == 0 then s else Play(env, PlayRounds(env, s, k - 1), Round)
  }

  /** From any scene, `k` rounds pass on to the senders exactly the non-zero notifications they read. */
  lemma {:induction false} RoundsPassOn(env: Outcomes, s: Scene, k: nat)
    ensures PassedOn(s, PlayRounds(env, s, k), Drained(env, s.queue, k))
  {
    if k == 0 {
      NothingPassed(s);
    } else {
      RoundsPassOn(env, s, k - 1);
      RoundPassesOn(env, s, PlayRounds(env, s, k - 1), Drained(env, s.queue, k - 1));
    }
  }

  lemma NothingPassed(s: Scene)
    ensures PassedOn(s, s, (s.queue, []))
  {
    assert NonZero(s.consumed) + [] == NonZero(s.consumed);
  }
}
