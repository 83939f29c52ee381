/** Shared vocabulary: identifiers, time, the optional-value wrapper and the
    immutable configuration that the membership engine, the discovery feeds
    and the validators are given. */
module Common {

  /** Some/None, the model of a nullable column or an absent request field. */
  datatype Option<T> = None | Some(value: T) {
    function GetOr(default: T): T {
      match this
      case Some(v) => v
      case None => default
    }
  }

  /** Instants are whole seconds; calendar dates are whole days. */
  type Time = int
  type Day = int

  type UserId = nat
  type EventId = nat
  type PlanId = nat
  type InviteId = nat
  type TagId = nat

  const MINUTE: int := 60
  const HOUR: int := 60 * MINUTE
  const DAY: int := 24 * HOUR

  /** The constants of the settings module, carried as one value. */
  datatype Config = Config(
    checkinPeriod: int,     // seconds a member has to check in when an event has no end
    checkinDistance: int,   // metres, projected distance
    minMembers: int,        // smallest max_members an event may declare
    maxMembers: int,        // largest max_members (the 32-bit column maximum)
    maxMessages: nat,       // stored messages a basic user may hold
    passwordLenMin: nat)    // shortest accepted password

  const Settings: Config := Config(4 * HOUR, 200, 2, 2147483647, 500, 6)
}
