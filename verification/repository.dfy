/**
 * The in-memory state store: an alarm status, an arming status and a set of
 * sensors. Persistence to user preferences is not modelled; what was stored
 * by an earlier run arrives as optional values that default when absent.
 */
module Repository {
  import opened Basics
  import opened Status
  import opened Sensors

  datatype Repo = Repo(sensors: SensorSet, alarm: AlarmStatus, arming: ArmingStatus)

  /** A mutating call on the store; the engine logs every one it makes. */
  datatype Write =
    | AlarmWrite(alarm: AlarmStatus)
    | ArmingWrite(arming: ArmingStatus)
    | SensorAdded(sensor: Sensor)
    | SensorRemoved(sensor: Sensor)
    | SensorUpdated(sensor: Sensor)

  /** Construction: each status and the sensor set is loaded if present, else defaulted. */
  function Load(storedAlarm: Option<AlarmStatus>, storedArming: Option<ArmingStatus>,
                storedSensors: Option<SensorSet>): (r: Repo)
    ensures storedAlarm.None? ==> r.alarm == NoAlarm
    ensures storedArming.None? ==> r.arming == Disarmed
    ensures storedSensors.None? ==> r.sensors == map[]
    ensures storedAlarm.Some? ==> r.alarm == storedAlarm.value
    ensures storedArming.Some? ==> r.arming == storedArming.value
    ensures storedSensors.Some? ==> r.sensors == storedSensors.value
  {
    Repo(storedSensors.GetOr(map[]), storedAlarm.GetOr(NoAlarm), storedArming.GetOr(Disarmed))
  }

  /** Set insertion: a sensor whose identity is already present is not replaced. */
  function AddSensor(r: Repo, s: Sensor): (r': Repo)
    ensures s.key in r'.sensors
    ensures r'.sensors.Keys == r.sensors.Keys + {s.key}
    ensures forall k :: k in r.sensors ==> r'.sensors[k] == r.sensors[k]
    ensures s.key !in r.sensors ==> r'.sensors[s.key] == s.active
    ensures s.key in r.sensors ==> r' == r
    ensures r'.alarm == r.alarm && r'.arming == r.arming
  {
    if s.key in r.sensors then r else r.(sensors := r.sensors[s.key := s.active])
  }

  /** Set removal by identity; removing an absent sensor changes nothing. */
  function RemoveSensor(r: Repo, s: Sensor): (r': Repo)
    ensures s.key !in r'.sensors
    ensures r'.sensors.Keys == r.sensors.Keys - {s.key}
    ensures forall k :: k in r'.sensors ==> r'.sensors[k] == r.sensors[k]
    ensures s.key !in r.sensors ==> r' == r
    ensures r'.alarm == r.alarm && r'.arming == r.arming
  {
    r.(sensors := r.sensors - {s.key})
  }

  /** Remove then add: the member with this identity now carries the caller's flag. */
  function UpdateSensor(r: Repo, s: Sensor): (r': Repo)
    ensures s.key in r'.sensors && r'.sensors[s.key] == s.active
    ensures r'.sensors.Keys == r.sensors.Keys + {s.key}
    ensures forall k :: k in r.sensors && k != s.key ==> r'.sensors[k] == r.sensors[k]
    ensures r'.alarm == r.alarm && r'.arming == r.arming
  {
    AddSensor(RemoveSensor(r, s), s)
  }

  function SetAlarmStatus(r: Repo, a: AlarmStatus): (r': Repo)
    ensures r'.alarm == a
    ensures r'.arming == r.arming && r'.sensors == r.sensors
  {
    r.(alarm := a)
  }

  function SetArmingStatus(r: Repo, m: ArmingStatus): (r': Repo)
    ensures r'.arming == m
    ensures r'.alarm == r.alarm && r'.sensors == r.sensors
  {
    r.(arming := m)
  }

  /** The effect of one logged write on the store. */
  function Apply(r: Repo, w: Write): Repo {
    match w
    case AlarmWrite(a) => SetAlarmStatus(r, a)
    case ArmingWrite(m) => SetArmingStatus(r, m)
    case SensorAdded(s) => AddSensor(r, s)
    case SensorRemoved(s) => RemoveSensor(r, s)
    case SensorUpdated(s) => UpdateSensor(r, s)
  }

  // The decision queries of the store interface. The in-memory store answers
  // each with a fixed value (or its input set) and reads no state; the engine
  // calls several of them and discards the answer.

  function PendingAlarmStatusQuery(sensor: Sensor, arming: ArmingStatus): (r: AlarmStatus)
    ensures r == PendingAlarm
  {
    PendingAlarm
  }

  function AlarmStatusQuery(arming: ArmingStatus, sensor: Sensor, alarm: AlarmStatus): (r: AlarmStatus)
    ensures r == Alarm
  {
    Alarm
  }

  function NoAlarmStatusQuery(alarm: AlarmStatus, sensors: SensorSet): (r: AlarmStatus)
    ensures r == NoAlarm
  {
    NoAlarm
  }

  function SensorAlreadyActivatedQuery(sensor: Sensor, wishToActivate: bool, alarm: AlarmStatus): (r: AlarmStatus)
    ensures r == Alarm
  {
    Alarm
  }

  function CatDetectedAlarmStatusQuery(cat: bool): (r: AlarmStatus)
    ensures r == Alarm
  {
    Alarm
  }

  function NoCatDetectedQuery(cat: bool, sensors: SensorSet): (r: AlarmStatus)
    ensures r == NoAlarm
  {
    NoAlarm
  }

  function NoAlarmQuery(arming: ArmingStatus): (r: AlarmStatus)
    ensures r == NoAlarm
  {
    NoAlarm
  }

  /** Answers its input set unchanged: the store resets nothing. */
  function ResetSensorsQuery(arming: ArmingStatus, sensors: SensorSet): (r: SensorSet)
    ensures r == sensors
  {
    sensors
  }

  /** The queries ignore their arguments: equal answers for any two argument lists. */
  lemma QueriesIgnoreArguments(s1: Sensor, s2: Sensor, m1: ArmingStatus, m2: ArmingStatus,
                               a1: AlarmStatus, a2: AlarmStatus, c1: bool, c2: bool,
                               set1: SensorSet, set2: SensorSet)
    ensures PendingAlarmStatusQuery(s1, m1) == PendingAlarmStatusQuery(s2, m2) == PendingAlarm
    ensures AlarmStatusQuery(m1, s1, a1) == AlarmStatusQuery(m2, s2, a2) == Alarm
    ensures NoAlarmStatusQuery(a1, set1) == NoAlarmStatusQuery(a2, set2) == NoAlarm
    ensures SensorAlreadyActivatedQuery(s1, c1, a1) == SensorAlreadyActivatedQuery(s2, c2, a2) == Alarm
    ensures CatDetectedAlarmStatusQuery(c1) == CatDetectedAlarmStatusQuery(c2) == Alarm
    ensures NoCatDetectedQuery(c1, set1) == NoCatDetectedQuery(c2, set2) == NoAlarm
    ensures NoAlarmQuery(m1) == NoAlarmQuery(m2) == NoAlarm
    ensures ResetSensorsQuery(m1, set1) == set1 && ResetSensorsQuery(m2, set2) == set2
  {
  }

  /** A first-ever load, with nothing stored, gives the documented defaults. */
  lemma FreshLoadDefaults()
    ensures Load(None, None, None) == Repo(map[], NoAlarm, Disarmed)
  {
  }

  /** Adding is idempotent, and adding an absent sensor is undone by removing it. */
  lemma AddRemoveRoundTrip(r: Repo, s: Sensor)
    ensures AddSensor(AddSensor(r, s), s) == AddSensor(r, s)
    ensures s.key !in r.sensors ==> RemoveSensor(AddSensor(r, s), s) == r
  {
    if s.key !in r.sensors {
      var r' := RemoveSensor(AddSensor(r, s), s);
      assert r'.sensors == r.sensors;
    }
  }

  /** Updating never loses or invents members other than the updated one. */
  lemma UpdateIsReplace(r: Repo, s: Sensor)
    ensures UpdateSensor(r, s).sensors == r.sensors[s.key := s.active]
    ensures s.key in r.sensors ==> UpdateSensor(r, s).sensors.Keys == r.sensors.Keys
  {
    var u := UpdateSensor(r, s).sensors;
    assert u.Keys == r.sensors[s.key := s.active].Keys;
  }
}
