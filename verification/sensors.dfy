/**
 * Sensors. A sensor is an identity (its name and type) plus a mutable
 * activation flag; a collection of sensors is unique by identity, so it is
 * represented as a map from identity to the current flag.
 */
module Sensors {

  /** Informational only: the type never affects an alarm decision. */
  datatype SensorType = Door | Window | Motion

  /** The identity of a sensor; changing its flag never changes this key. */
  datatype SensorKey = SensorKey(name: string, kind: SensorType)

  /** A sensor object as a caller holds it: identity plus current flag. */
  datatype Sensor = Sensor(key: SensorKey, active: bool)

  /** A set of sensors, unique by identity, with each member's flag. */
  type SensorSet = map<SensorKey, bool>

  /** True iff some member of the set is active. */
  predicate AnyActive(sensors: SensorSet) {
    exists k :: k in sensors && sensors[k]
  }
}
