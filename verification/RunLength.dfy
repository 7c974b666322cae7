/** Histories of conditions and marks, and the alert state a history stands for. */
module RunLength {
  import opened Model

  type History = seq<AlertCondition>

  /** How many samples at the end of the history are all `c`. */
  function Trailing(h: History, c: AlertCondition): nat {
    if h == [] || h[|h| - 1] != c then 0 else 1 + Trailing(h[..|h| - 1], c)
  }

  function Latest(h: History): AlertCondition {
    if h == [] then "" else h[|h| - 1]
  }

  function Run(h: History): nat {
    Trailing(h, Latest(h))
  }

  function LastMark(marks: seq<bool>): bool {
    marks != [] && marks[|marks| - 1]
  }

  /** The state of a type whose samples were `h` and whose activity was set to each of `marks` in turn. */
  function StateOf(h: History, marks: seq<bool>): AlertState {
    AlertState(Run(h), Latest(h), LastMark(marks))
  }

  /** One more sample on top of a state. */
  function Bump(s: AlertState, c: AlertCondition): AlertState {
    if s.condition == c then s.(count := s.count + 1) else s.(condition := c, count := 1)
  }

  lemma {:induction false} TrailingMeaning(h: History, c: AlertCondition, n: nat)
    ensures Trailing(h, c) == n <==>
            && n <= |h|
            && (forall i :: |h| - n <= i < |h| ==> h[i] == c)
            && (n < |h| ==> h[|h| - n - 1] != c)
  {
    if h != [] && h[|h| - 1] == c {
      if n == 0 {
      } else {
        var front := h[..|h| - 1];
        TrailingMeaning(front, c, n - 1);
        assert forall i :: 0 <= i < |front| ==> front[i] == h[i];
      }
    }
  }

  lemma TrailingAtMost(h: History, c: AlertCondition)
    ensures Trailing(h, c) <= |h|
  {
    TrailingMeaning(h, c, Trailing(h, c));
  }

  lemma TrailingExtends(h: History, c: AlertCondition)
    ensures Trailing(h + [c], c) == Trailing(h, c) + 1
    ensures Run(h + [c]) == Trailing(h, c) + 1
    ensures forall d :: d != c ==> Trailing(h + [c], d) == 0
  {
    assert (h + [c])[..|h|] == h;
  }

  lemma {:induction false} TrailingOfSuffix(x: History, h: History, c: AlertCondition)
    ensures Trailing(h, c) <= Trailing(x + h, c)
  {
    if h != [] && h[|h| - 1] == c {
      assert (x + h)[..|x + h| - 1] == x + h[..|h| - 1];
      TrailingOfSuffix(x, h[..|h| - 1], c);
    }
  }

  lemma BumpExtends(h: History, marks: seq<bool>, c: AlertCondition)
    ensures Bump(StateOf(h, marks), c) == StateOf(h + [c], marks)
  {
    TrailingExtends(h, c);
  }

  predicate EndsWith(h: History, n: nat, c: AlertCondition) {
    n <= |h| && forall i :: |h| - n <= i < |h| ==> h[i] == c
  }

  /** A run reaches `n` exactly when the last `n` samples were all alike. */
  lemma {:induction false} TrailingReaches(h: History, n: nat, c: AlertCondition)
    ensures n <= Trailing(h, c) <==> EndsWith(h, n, c)
  {
    if n > 0 && h != [] && h[|h| - 1] == c {
      var front := h[..|h| - 1];
      TrailingReaches(front, n - 1, c);
      assert forall i :: 0 <= i < |front| ==> front[i] == h[i];
    }
  }
}
