/** The notification queue: a Redis list pushed and popped at its right end. */
module Queue {
  import opened Model

  datatype QueueState = QueueState(list: seq<Notification>, issued: nat)

  type Outcomes = nat -> Fate

  function Pushed(env: Outcomes, q: QueueState, n: Notification): (QueueState, bool) {
    var fate := env(q.issued);
    (QueueState(if fate.Refused? then q.list else q.list + [n], q.issued + 1), fate.Done?)
  }

  function Popped(env: Outcomes, q: QueueState): (QueueState, Result<Notification>) {
    var fate := env(q.issued);
    var rest := if fate.Refused? || q.list == [] then q.list else q.list[..|q.list| - 1];
    (QueueState(rest, q.issued + 1),
     if !fate.Done? then Err(Unavailable)
     else Ok(if q.list == [] then NO_NOTIFICATION else q.list[|q.list| - 1]))
  }

  class RedisNotificationQueue {
    const env: Outcomes
    var list: seq<Notification>
    var issued: nat

    constructor (env: Outcomes)
      ensures this.env == env && View() == QueueState([], 0)
    {
      this.env := env;
      list, issued := [], 0;
    }

    function View(): QueueState
      reads this
    {
      QueueState(list, issued)
    }

    method Push(n: Notification) returns (ok: bool)
      modifies this
      ensures (View(), ok) == Pushed(env, old(View()), n)
      ensures list == (if env(old(issued)).Refused? then old(list) else old(list) + [n]) && issued == old(issued) + 1
      ensures ok <==> env(old(issued)).Done?
    {
      var fate := env(issued);
      issued := issued + 1;
      if !fate.Refused? {
        list := list + [n];
      }
      ok := fate.Done?;
    }

    method Consume() returns (r: Result<Notification>)
      modifies this
      ensures (View(), r) == Popped(env, old(View()))
      ensures issued == old(issued) + 1
      ensures list == if env(old(issued)).Refused? || old(list) == [] then old(list) else old(list)[..|old(list)| - 1]
      ensures r == if !env(old(issued)).Done? then Err(Unavailable)
                   else if old(list) == [] then Ok(NO_NOTIFICATION) else Ok(old(list)[|old(list)| - 1])
    {
      var fate := env(issued);
      issued := issued + 1;
      var n := NO_NOTIFICATION;
      if !fate.Refused? && list != [] {
        n := list[|list| - 1];
        list := list[..|list| - 1];
      }
      r := if fate.Done? then Ok(n) else Err(Unavailable);
    }
  }
}
