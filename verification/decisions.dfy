/**
 * The decision helpers of the security service. Most only answer a status
 * from their arguments; `NoCatNoAlarmSet` may fall through to cat detection
 * and `ResetTheSensors` stores every sensor it deactivates.
 */
module Decisions {
  import opened Basics
  import opened Status
  import opened Sensors
  import Repository
  import opened Events
  import opened Engine

  /** Pending exactly for an active sensor in either armed mode. */
  function ChangeToPending(sensor: Sensor, arming: ArmingStatus): (r: AlarmStatus)
    ensures r == PendingAlarm <==> sensor.active && IsArmed(arming)
    ensures r == NoAlarm <==> !(sensor.active && IsArmed(arming))
  {
    if sensor.active && arming == ArmedHome then PendingAlarm
    else if sensor.active && arming == ArmedAway then PendingAlarm
    else NoAlarm
  }

  /** Escalation from pending: Alarm exactly when armed, the sensor is active and the alarm was pending. */
  function ChangeToAlarm(arming: ArmingStatus, sensor: Sensor, alarm: AlarmStatus): (r: AlarmStatus)
    ensures r == Alarm <==> IsArmed(arming) && sensor.active && alarm == PendingAlarm
    ensures r == NoAlarm <==> !(IsArmed(arming) && sensor.active && alarm == PendingAlarm)
  {
    match arming
    case ArmedAway | ArmedHome =>
      if sensor.active && alarm == PendingAlarm then Alarm else NoAlarm
    case Disarmed => NoAlarm
  }

  /**
   * Any active sensor makes the answer PendingAlarm; with none active the
   * answer is NoAlarm exactly when the given status is PendingAlarm.
   */
  function NoAlarmSet(alarm: AlarmStatus, sensors: SensorSet): (r: AlarmStatus)
    ensures AnyActive(sensors) ==> r == PendingAlarm
    ensures !AnyActive(sensors) ==> (r == NoAlarm <==> alarm == PendingAlarm)
    ensures r != Alarm
  {
    if AnyActive(sensors) then PendingAlarm
    else if alarm == PendingAlarm then NoAlarm
    else PendingAlarm
  }

  /**
   * Already active and asked to activate while pending: Alarm. Inactive and
   * asked to stay inactive: the given status unchanged. Anything else: NoAlarm.
   */
  function SensorAlreadyActivated(sensor: Sensor, wishToActivate: bool, alarm: AlarmStatus): (r: AlarmStatus)
    ensures sensor.active && wishToActivate && alarm == PendingAlarm ==> r == Alarm
    ensures !sensor.active && !wishToActivate ==> r == alarm
    ensures sensor.active != wishToActivate ==> r == NoAlarm
    ensures sensor.active && wishToActivate && alarm != PendingAlarm ==> r == NoAlarm
  {
    if sensor.active && wishToActivate && alarm == PendingAlarm then Alarm
    else if !sensor.active && !wishToActivate then alarm
    else NoAlarm
  }

  /** NoAlarm exactly when disarmed, PendingAlarm otherwise. */
  function NoAlarmFor(arming: ArmingStatus): (r: AlarmStatus)
    ensures r == NoAlarm <==> arming == Disarmed
    ensures r == PendingAlarm <==> IsArmed(arming)
  {
    if arming == Disarmed then NoAlarm else PendingAlarm
  }

  /**
   * Without a cat, an active sensor answers PendingAlarm and touches nothing;
   * otherwise the call is cat detection, which stores and announces its verdict.
   */
  function NoCatNoAlarmSet(s: Service, cat: bool, sensors: SensorSet): (r: Reply)
    ensures !cat && AnyActive(sensors) ==> r == Reply(s, PendingAlarm)
    ensures !cat && !AnyActive(sensors) ==> r.status == NoAlarm && r.service.repo == s.repo.(alarm := NoAlarm)
    ensures cat ==> r.status == Alarm && r.service.repo == s.repo.(alarm := Alarm)
    ensures !(!cat && AnyActive(sensors)) ==> r == CatDetected(s, cat)
  {
    if !cat && AnyActive(sensors) then Reply(s, PendingAlarm)
    else CatDetected(s, cat)
  }

  /** The logged updates of a reset that visits the sensors in the order `ks`. */
  function ResetEffects(ks: seq<SensorKey>): seq<Effect> {
    if ks == [] then []
    else ResetEffects(ks[..|ks| - 1]) + [Wrote(Repository.SensorUpdated(Sensor(ks[|ks| - 1], false)))]
  }

  /** Keys on which two sensor sets agree: both absent, or both present with the same flag. */
  predicate SameEntry(a: SensorSet, b: SensorSet, k: SensorKey) {
    (k in a <==> k in b) && (k in a ==> a[k] == b[k])
  }

  /** The service after storing each key of `ks` as inactive, in order. */
  function StoreResets(s: Service, ks: seq<SensorKey>): Service {
    if ks == [] then s
    else Persist(StoreResets(s, ks[..|ks| - 1]), Repository.SensorUpdated(Sensor(ks[|ks| - 1], false)))
  }

  /**
   * Storing the keys `ks` as inactive logs one update per key, leaves every
   * key of `ks` stored inactive and every other stored sensor as it was.
   */
  lemma {:induction false} StoreResetsShape(s: Service, ks: seq<SensorKey>)
    ensures var r := StoreResets(s, ks);
      && r.listeners == s.listeners && r.trace == s.trace + ResetEffects(ks)
      && r.repo.alarm == s.repo.alarm && r.repo.arming == s.repo.arming
      && (forall k :: k in ks ==> k in r.repo.sensors && !r.repo.sensors[k])
      && (forall k :: k !in ks ==> SameEntry(r.repo.sensors, s.repo.sensors, k))
  {
    if ks != [] {
      var init := ks[..|ks| - 1];
      var last := ks[|ks| - 1];
      StoreResetsShape(s, init);
      var p := StoreResets(s, init);
      Repository.UpdateIsReplace(p.repo, Sensor(last, false));
      assert forall k :: k in ks <==> k in init || k == last;
    }
  }

  /**
   * When armed, every sensor of the given set is deactivated and stored,
   * each exactly once, in an unspecified order reported as `visited`; the
   * same sensors come back, all inactive. When disarmed nothing happens.
   */
  method ResetTheSensors(s: Service, arming: ArmingStatus, sensors: SensorSet)
    returns (r: Service, reset: SensorSet, visited: seq<SensorKey>)
    ensures !IsArmed(arming) ==> r == s && reset == sensors && visited == []
    ensures reset.Keys == sensors.Keys
    ensures IsArmed(arming) ==> forall k :: k in reset ==> !reset[k]
    ensures r.repo.alarm == s.repo.alarm && r.repo.arming == s.repo.arming
    ensures IsArmed(arming) ==> forall k :: k in sensors ==> k in r.repo.sensors && !r.repo.sensors[k]
    ensures forall k :: k !in sensors ==> SameEntry(r.repo.sensors, s.repo.sensors, k)
    ensures Distinct(visited)
    ensures forall k :: k in visited <==> k in sensors && IsArmed(arming)
    ensures r.listeners == s.listeners && r.trace == s.trace + ResetEffects(visited)
    ensures r == if IsArmed(arming) then StoreResets(s, visited) else s
  {
    if IsArmed(arming) {
      r, reset, visited := DeactivateAll(s, sensors);
    } else {
      r, reset, visited := s, sensors, [];
    }
  }

  /**
   * The loop of a reset: every sensor of the set is stored inactive exactly
   * once, in the order `visited`, and every other stored sensor is kept.
   */
  method DeactivateAll(s: Service, sensors: SensorSet)
    returns (r: Service, reset: SensorSet, visited: seq<SensorKey>)
    ensures reset.Keys == sensors.Keys
    ensures forall k :: k in reset ==> !reset[k]
    ensures r.repo.alarm == s.repo.alarm && r.repo.arming == s.repo.arming
    ensures forall k :: k in sensors ==> k in r.repo.sensors && !r.repo.sensors[k]
    ensures forall k :: k !in sensors ==> SameEntry(r.repo.sensors, s.repo.sensors, k)
    ensures Distinct(visited)
    ensures forall k :: k in visited <==> k in sensors
    ensures r.listeners == s.listeners && r.trace == s.trace + ResetEffects(visited)
    ensures r == StoreResets(s, visited)
  {
    r, reset, visited := s, sensors, [];
    var todo := sensors.Keys;
    while todo != {}
      invariant todo <= sensors.Keys
      invariant reset.Keys == sensors.Keys
      invariant forall k :: k in reset && k !in todo ==> !reset[k]
      invariant Distinct(visited)
      invariant forall k :: k in visited <==> k in sensors && k !in todo
      invariant r == StoreResets(s, visited)
      decreases todo
    {
      var k :| k in todo;
      reset := reset[k := false];
      r := Persist(r, Repository.SensorUpdated(Sensor(k, false)));
      assert (visited + [k])[..|visited|] == visited;
      visited := visited + [k];
      todo := todo - {k};
    }
    StoreResetsShape(s, visited);
  }
}
