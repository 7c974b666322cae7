/** The values shared by every component of the alert pipeline. */
module Model {
  datatype Option<+T> = None | Some(value: T)

  datatype Error = InvalidType | Unavailable | Malformed | CacheMiss | ZeroTotal

  datatype Result<+T> = Ok(value: T) | Err(error: Error)

  // The source's alert type is a string; any name other than the two constants is rejected by every store.
  datatype AlertType = HighCPU | HighMem | OtherType(name: string)

  predicate Supported(t: AlertType) {
    t.HighCPU? || t.HighMem?
  }

  // A string in the source too: the empty string is the condition of a state never set.
  type AlertCondition = string

  const CONDITION_NORMAL: AlertCondition := "normal"
  const CONDITION_HIGH: AlertCondition := "high"

  datatype AlertState = AlertState(count: int, condition: AlertCondition, active: bool)

  const ZERO_STATE := AlertState(0, "", false)

  // What happened to one command: answered, refused without effect, or carried out with the answer lost.
  datatype Fate = Done | Refused | Lost

  // Percentages and sizes as reals, the time in nanoseconds.
  datatype Metrics = Metrics(cpu: real, memUsage: real, memUsed: real, memTotal: real,
                             diskUsage: real, diskUsed: real, diskTotal: real, timestamp: int)

  datatype Action = NoAction | Created | Resolved

  datatype Notification = Notification(kind: AlertType, action: Action, value: real, threshold: real, at: int)

  // The zero notification, which a queue hands out when it is empty.
  const NO_NOTIFICATION := Notification(OtherType(""), NoAction, 0.0, 0.0, 0)
}
