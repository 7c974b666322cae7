/** Schedules that agree on the commands a call issues give it the same answer and the same effect. */
module Schedules {
  import opened Model
  import opened Redis
  import opened RedisStore

  ghost predicate Agree(e: Environment, f: Environment, from: nat, to: nat) {
    forall k :: from <= k < to ==> e(k) == f(k)
  }

  // A schedule refusing exactly the given commands, with no time passing.
  function Refusing(commands: set<nat>): Environment {
    (k: nat) => Step(0, if k in commands then Refused else Done)
  }

  lemma ExecAgrees(e: Environment, f: Environment, w: Slots, t: AlertType, field: Field, cmd: Command, to: nat)
    requires Agree(e, f, w.issued, to) && w.issued < to
    ensures Exec(f, w, t, field, cmd) == Exec(e, w, t, field, cmd)
    ensures Exec(e, w, t, field, cmd).0.issued == w.issued + 1
  {
    assert e(w.issued) == f(w.issued);
  }

  lemma ContinueAgrees(e: Environment, f: Environment, ttl: nat, w: Slots, t: AlertType)
    requires Agree(e, f, w.issued, Continue(e, ttl, w, t).0.issued)
    ensures Continue(f, ttl, w, t) == Continue(e, ttl, w, t) && w.issued < Continue(e, ttl, w, t).0.issued
  {
    var to := Continue(e, ttl, w, t).0.issued;
    ExecAgrees(e, f, w, t, Count, Incr, to);
    var (w1, n) := Exec(e, w, t, Count, Incr);
    if n.Ok? {
      ExecAgrees(e, f, w1, t, Count, Expire(ttl), to);
      var (w2, kept) := Exec(e, w1, t, Count, Expire(ttl));
      if kept.Ok? {
        ExecAgrees(e, f, w2, t, Condition, Expire(ttl), to);
      }
    }
  }

  lemma RestartAgrees(e: Environment, f: Environment, ttl: nat, w: Slots, t: AlertType, c: AlertCondition)
    requires Agree(e, f, w.issued, Restart(e, ttl, w, t, c).0.issued)
    ensures Restart(f, ttl, w, t, c) == Restart(e, ttl, w, t, c) && w.issued < Restart(e, ttl, w, t, c).0.issued
  {
    var to := Restart(e, ttl, w, t, c).0.issued;
    ExecAgrees(e, f, w, t, Condition, Set(c, Some(ttl)), to);
    var (w1, put) := Exec(e, w, t, Condition, Set(c, Some(ttl)));
    if put.Ok? {
      ExecAgrees(e, f, w1, t, Count, Set("1", Some(ttl)), to);
    }
  }

  lemma IncrementAgrees(e: Environment, f: Environment, ttl: nat, w: Slots, t: AlertType, c: AlertCondition)
    requires Agree(e, f, w.issued, Increment(e, ttl, w, t, c).0.issued)
    ensures Increment(f, ttl, w, t, c) == Increment(e, ttl, w, t, c)
    ensures w.issued <= Increment(e, ttl, w, t, c).0.issued
  {
    if Supported(t) {
      IncrementIssues(e, ttl, w, t, c);
      ExecAgrees(e, f, w, t, Condition, Get, Increment(e, ttl, w, t, c).0.issued);
      var (w1, seen) := Exec(e, w, t, Condition, Get);
      if seen.Ok? {
        if Shown(seen.value) == c {
          ContinueAgrees(e, f, ttl, w1, t);
        } else {
          RestartAgrees(e, f, ttl, w1, t, c);
        }
      }
    }
  }

  lemma IncrementIssues(e: Environment, ttl: nat, w: Slots, t: AlertType, c: AlertCondition)
    requires Supported(t)
    ensures w.issued < Increment(e, ttl, w, t, c).0.issued
  {
  }
}
