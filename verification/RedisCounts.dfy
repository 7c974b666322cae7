/** What one call on the Redis store does to the state its keys hold. */
module RedisCounts {
  import opened Model
  import opened Redis
  import opened RedisStore
  import opened RunLength
  import Decimal

  function HeldCount(c: Cell): int {
    if c.None? then 0 else
    var n := Decimal.ParseInt(c.value.text);
    if n.None? then 0 else n.value
  }

  /** The state a slot stores, expiry aside. */
  function Held(s: Slot): AlertState {
    AlertState(HeldCount(s.count),
               if s.condition.Some? then s.condition.value.text else "",
               s.active.Some? && s.active.value.text == "1")
  }

  /** Neither counted key is gone by `time`. */
  predicate Outlives(s: Slot, time: int) {
    (s.condition.Some? ==> Live(s.condition, time)) && (s.count.Some? ==> Live(s.count, time))
  }

  predicate Sane(s: Slot) {
    && (s.count.Some? ==> Decimal.ParseInt(s.count.value.text).Some?)
    && 0 <= HeldCount(s.count)
    && (s.active.Some? ==> s.active.value.expires.None?)
  }

  /**
   A stored count never exceeds the number of samples, nor the run of a condition that can still be read beside it.
   */
  predicate Coherent(s: Slot, h: History, now: int) {
    && Sane(s) && HeldCount(s.count) <= |h|
    && (Live(s.condition, now) && s.count.Some? ==> HeldCount(s.count) <= Trailing(h, s.condition.value.text))
  }

  lemma CallsFrame(env: Environment, ttl: nat, w: Slots, t: AlertType, c: AlertCondition, u: AlertType)
    requires Supported(t) && Supported(u)
    ensures var w' := Increment(env, ttl, w, t, c).0;
            w.now <= w'.now && w'.At(u).active == w.At(u).active && (u != t ==> w'.At(u) == w.At(u))
  {
  }

  // The condition a GET shows, a missing key reading as the empty string.
  function Read(c: Cell, now: int): string {
    if Live(c, now) then c.value.text else ""
  }

  /** The slot left, and the count returned, by an increment whose commands were all answered at the given times. */
  function Matched(s: Slot, times: (int, int, int, int), ttl: nat): Slot {
    s.(condition := Effect(Expire(ttl), s.condition, times.3),
       count := Effect(Expire(ttl), Effect(Incr, s.count, times.1), times.2))
  }

  function Restarted(s: Slot, c: AlertCondition, times: (int, int, int, int), ttl: nat): Slot {
    s.(condition := Stored(c, times.1, Some(ttl)), count := Stored("1", times.2, Some(ttl)))
  }

  predicate Advances(now: int, times: (int, int, int, int), end: int) {
    now <= times.0 <= times.1 <= times.2 <= end && (times.2 == end || times.2 <= times.3 == end)
  }

  // The times at which the commands of a call are carried out; an answered call issues three or four.
  function Times(env: Environment, w: Slots): (int, int, int, int) {
    var t1 := w.now + env(w.issued).delay;
    var t2 := t1 + env(w.issued + 1).delay;
    var t3 := t2 + env(w.issued + 2).delay;
    (t1, t2, t3, t3 + env(w.issued + 3).delay)
  }

  lemma ContinueShape(env: Environment, ttl: nat, w: Slots, t: AlertType)
    requires Continue(env, ttl, w, t).1.Ok?
    ensures var (w', n) := Continue(env, ttl, w, t);
            var t2 := w.now + env(w.issued).delay;
            var t3 := t2 + env(w.issued + 1).delay;
            var t4 := t3 + env(w.issued + 2).delay;
            && w'.now == t4 && Counter(w.At(t).count, t2).Some? && n.value == Counter(w.At(t).count, t2).value + 1
            && w'.At(t) == Matched(w.At(t), (w.now, t2, t3, t4), ttl)
  {
  }

  lemma MatchedShape(env: Environment, ttl: nat, w: Slots, t: AlertType, c: AlertCondition)
    requires Supported(t) && Increment(env, ttl, w, t, c).1.Ok?
    requires Read(w.At(t).condition, Times(env, w).0) == c
    ensures var (w', n) := Increment(env, ttl, w, t, c);
            var s, times := w.At(t), Times(env, w);
            && Advances(w.now, times, w'.now)
            && Counter(s.count, times.1).Some?
            && n.value == Counter(s.count, times.1).value + 1
            && w'.At(t) == Matched(s, times, ttl)
  {
    MatchedContinues(env, ttl, w, t, c);
    ContinueShape(env, ttl, Exec(env, w, t, Condition, Get).0, t);
  }

  lemma MatchedContinues(env: Environment, ttl: nat, w: Slots, t: AlertType, c: AlertCondition)
    requires Supported(t) && Increment(env, ttl, w, t, c).1.Ok?
    requires Read(w.At(t).condition, Times(env, w).0) == c
    ensures var w1 := Exec(env, w, t, Condition, Get).0;
            && Increment(env, ttl, w, t, c) == Continue(env, ttl, w1, t)
            && w1.At(t) == w.At(t) && w1.now == Times(env, w).0 && w1.issued == w.issued + 1
  {
    var (w1, seen) := Exec(env, w, t, Condition, Get);
    assert seen.Ok? && Shown(seen.value) == c;
  }

  lemma RestartedShape(env: Environment, ttl: nat, w: Slots, t: AlertType, c: AlertCondition)
    requires Supported(t) && Increment(env, ttl, w, t, c).1.Ok?
    requires Read(w.At(t).condition, Times(env, w).0) != c
    ensures var (w', n) := Increment(env, ttl, w, t, c);
            && Advances(w.now, Times(env, w), w'.now)
            && n.value == 1 && w'.At(t) == Restarted(w.At(t), c, Times(env, w), ttl)
  {
  }

  lemma MatchedCount(s: Slot, times: (int, int, int, int), ttl: nat)
    requires Counter(s.count, times.1).Some?
    ensures var n := Counter(s.count, times.1).value + 1;
            var s' := Matched(s, times, ttl);
            && s'.count.Some? && s'.count.value.text == Decimal.PrintInt(n)
            && HeldCount(s'.count) == n && Decimal.ParseInt(s'.count.value.text) == Some(n)
            && (s.condition.Some? ==> s'.condition.Some? && s'.condition.value.text == s.condition.value.text)
            && (s.condition.None? ==> s'.condition.None?)
  {
    Decimal.IntRoundTrip(Counter(s.count, times.1).value + 1);
  }

  lemma RestartedCount(s: Slot, c: AlertCondition, times: (int, int, int, int), ttl: nat)
    ensures var s' := Restarted(s, c, times, ttl);
            HeldCount(s'.count) == 1 && Decimal.ParseInt(s'.count.value.text) == Some(1)
  {
    Decimal.IntRoundTrip(1);
    assert Decimal.PrintInt(1) == "1";
  }

  /**
   A call finds what is stored: the condition when it reads it, and, if that is the sample's, the count when it adds to
   it. What expires at any other time makes no difference to the call.
   */
  predicate FindsStored(s: Slot, c: AlertCondition, times: (int, int, int, int)) {
    && (s.condition.Some? ==> Live(s.condition, times.0))
    && (Held(s).condition == c && s.count.Some? ==> Live(s.count, times.1))
  }

  /** When nothing stored outlives its expiry before the end of a call, the call finds it. */
  lemma OutlivingIsFound(env: Environment, ttl: nat, w: Slots, t: AlertType, c: AlertCondition)
    requires Supported(t) && Increment(env, ttl, w, t, c).1.Ok?
    requires Outlives(w.At(t), Increment(env, ttl, w, t, c).0.now)
    ensures FindsStored(w.At(t), c, Times(env, w))
  {
    if Read(w.At(t).condition, Times(env, w).0) == c {
      MatchedShape(env, ttl, w, t, c);
    } else {
      RestartedShape(env, ttl, w, t, c);
    }
  }

  /** When the keys it reads have not expired, an answered increment is the in-memory step. */
  lemma CountsExactly(env: Environment, ttl: nat, w: Slots, t: AlertType, c: AlertCondition)
    requires Supported(t) && Sane(w.At(t))
    requires Increment(env, ttl, w, t, c).1.Ok? && FindsStored(w.At(t), c, Times(env, w))
    ensures var (w', n) := Increment(env, ttl, w, t, c);
            && Sane(w'.At(t))
            && Held(w'.At(t)) == Bump(Held(w.At(t)), c)
            && n == Ok(Held(w'.At(t)).count)
  {
    var s, times := w.At(t), Times(env, w);
    if Read(s.condition, times.0) == c {
      MatchedShape(env, ttl, w, t, c);
      MatchedCount(s, times, ttl);
    } else {
      RestartedShape(env, ttl, w, t, c);
      RestartedCount(s, c, times, ttl);
    }
  }

  /** Whatever expires between its commands, an answered increment counts at least one and at most the run. */
  lemma CountsAtMost(env: Environment, ttl: nat, w: Slots, t: AlertType, c: AlertCondition, h: History)
    requires Supported(t) && Coherent(w.At(t), h, w.now)
    requires Increment(env, ttl, w, t, c).1.Ok?
    ensures var (w', n) := Increment(env, ttl, w, t, c);
            && Coherent(w'.At(t), h + [c], w'.now)
            && 1 <= n.value <= |h| + 1
            && (c != "" ==> n.value <= Run(h + [c]))
  {
    TrailingExtends(h, c);
    TrailingAtMost(h, c);
    var s, times := w.At(t), Times(env, w);
    if Read(s.condition, times.0) == c {
      MatchedShape(env, ttl, w, t, c);
      MatchedCount(s, times, ttl);
    } else {
      RestartedShape(env, ttl, w, t, c);
      RestartedCount(s, c, times, ttl);
    }
  }

  ghost predicate Answered(env: Environment) {
    forall k :: env(k).fate.Done?
  }

  lemma AnswersWhenSane(env: Environment, ttl: nat, w: Slots, t: AlertType, c: AlertCondition)
    requires Answered(env) && Supported(t) && Sane(w.At(t))
    ensures Increment(env, ttl, w, t, c).1.Ok?
  {
  }

  lemma SaneAfter(env: Environment, ttl: nat, w: Slots, t: AlertType, c: AlertCondition)
    requires Supported(t) && Sane(w.At(t)) && Increment(env, ttl, w, t, c).1.Ok?
    ensures Sane(Increment(env, ttl, w, t, c).0.At(t))
  {
    var s, times := w.At(t), Times(env, w);
    if Read(s.condition, times.0) == c {
      MatchedShape(env, ttl, w, t, c);
      MatchedCount(s, times, ttl);
    } else {
      RestartedShape(env, ttl, w, t, c);
      RestartedCount(s, c, times, ttl);
    }
  }

  lemma ImageHolds(s: AlertState, now: int, ttl: nat)
    ensures Held(Image(s, now, ttl)) == s
    ensures 0 <= s.count ==> Sane(Image(s, now, ttl))
  {
    Decimal.IntRoundTrip(s.count);
  }

  lemma ImageCoherent(h: History, marks: seq<bool>, now: int, ttl: nat)
    ensures forall time :: Coherent(Image(StateOf(h, marks), now, ttl), h, time)
  {
    ImageHolds(StateOf(h, marks), now, ttl);
    TrailingAtMost(h, Latest(h));
  }
}
