/** The enumerations the alarm engine branches on. */
module Status {

  /** The system's current severity level. */
  datatype AlarmStatus = NoAlarm | PendingAlarm | Alarm

  /** The user-selected mode. */
  datatype ArmingStatus = Disarmed | ArmedHome | ArmedAway

  /** Severity order on alarm statuses: NoAlarm < PendingAlarm < Alarm. */
  function Severity(a: AlarmStatus): nat {
    match a
    case NoAlarm => 0
    case PendingAlarm => 1
    case Alarm => 2
  }

  /** Either of the two armed modes. */
  predicate IsArmed(m: ArmingStatus) {
    m == ArmedHome || m == ArmedAway
  }
}
