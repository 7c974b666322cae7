/** The in-memory store of alert states. */
module InMemory {
  import opened Model
  import opened RunLength

  type States = map<AlertType, AlertState>

  function StateAt(states: States, t: AlertType): AlertState {
    if t in states then states[t] else ZERO_STATE
  }

  function Counted(states: States, t: AlertType, c: AlertCondition): States {
    states[t := Bump(StateAt(states, t), c)]
  }

  function Marked(states: States, t: AlertType, active: bool): States {
    states[t := StateAt(states, t).(active := active)]
  }

  class InMemoryAlertStateStore {
    var states: States

    constructor ()
      ensures states == map[]
    {
      states := map[];
    }

    method IncrementCount(t: AlertType, c: AlertCondition) returns (r: Result<int>)
      modifies this
      ensures !Supported(t) ==> r == Err(InvalidType) && states == old(states)
      ensures Supported(t) ==> states == Counted(old(states), t, c) && r == Ok(states[t].count)
    {
      if !Supported(t) {
        return Err(InvalidType);
      }
      var value;
      if t !in states {
        states := states[t := AlertState(1, c, false)];
        value := 1;
      } else {
        var state := states[t];
        if state.condition != c {
          state := state.(condition := c, count := 1);
          value := 1;
        } else {
          state := state.(count := state.count + 1);
          value := state.count;
        }
        states := states[t := state];
      }
      return Ok(value);
    }

    method IsActive(t: AlertType) returns (r: Result<bool>)
      ensures r == if Supported(t) then Ok(StateAt(states, t).active) else Err(InvalidType)
    {
      if !Supported(t) {
        return Err(InvalidType);
      }
      if t !in states {
        return Ok(false);
      }
      return Ok(states[t].active);
    }

    method SetActive(t: AlertType, active: bool) returns (ok: bool)
      modifies this
      ensures ok == Supported(t)
      ensures states == if Supported(t) then Marked(old(states), t, active) else old(states)
    {
      if !Supported(t) {
        return false;
      }
      if t !in states {
        states := states[t := AlertState(0, "", active)];
      } else {
        states := states[t := states[t].(active := active)];
      }
      return true;
    }

    method GetState(t: AlertType) returns (r: Result<AlertState>)
      ensures r == if Supported(t) then Ok(StateAt(states, t)) else Err(InvalidType)
    {
      if !Supported(t) {
        return Err(InvalidType);
      }
      if t in states {
        return Ok(states[t]);
      }
      return Ok(ZERO_STATE);
    }
  }
}
