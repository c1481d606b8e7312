/**
 * The alarm engine: the transitions of the security service over the store,
 * the listener registry and the trace of effects it produces.
 */
module Engine {
  import opened Status
  import opened Sensors
  import Repository
  import opened Events

  /** The service's whole state: its store, its registered listeners, and everything it has done. */
  datatype Service = Service(repo: Repository.Repo, listeners: Registry, trace: seq<Effect>)

  /** A new state together with the alarm status an operation returns. */
  datatype Reply = Reply(service: Service, status: AlarmStatus)

  /** The confidence threshold handed to the image classifier. */
  const CatConfidenceThreshold: real := 50.0

  /** A service over a loaded store: nobody registered yet and nothing done yet. */
  function NewService(repo: Repository.Repo): (r: Service)
    ensures r.repo == repo
    ensures forall l :: l !in r.listeners
    ensures r.trace == [] && Replay(repo, r.trace) == r.repo
  {
    Service(repo, [], [])
  }

  /** `after` keeps the listeners of `before` and only appends to its trace. */
  predicate Extends(before: Service, after: Service) {
    && after.listeners == before.listeners
    && |before.trace| <= |after.trace|
    && after.trace[..|before.trace|] == before.trace
  }

  /** The effects appended between `before` and `after`. */
  function Since(before: Service, after: Service): seq<Effect>
    requires |before.trace| <= |after.trace|
  {
    after.trace[|before.trace|..]
  }

  /** Appending in two steps is appending the concatenation. */
  lemma ExtendsTrans(a: Service, b: Service, c: Service)
    requires Extends(a, b) && Extends(b, c)
    ensures Extends(a, c)
    ensures Since(a, c) == Since(a, b) + Since(b, c)
  {
    assert c.trace[..|a.trace|] == c.trace[..|b.trace|][..|a.trace|];
  }

  /** One write to the store, logged. */
  function Persist(s: Service, w: Repository.Write): (r: Service)
    ensures Extends(s, r) && Since(s, r) == [Wrote(w)]
  {
    s.(repo := Repository.Apply(s.repo, w), trace := s.trace + [Wrote(w)])
  }

  /** One message to every registered listener, logged. */
  function Broadcast(s: Service, m: Message): (r: Service)
    ensures r.repo == s.repo
    ensures Extends(s, r) && Since(s, r) == FanOut(s.listeners, m)
  {
    s.(trace := s.trace + FanOut(s.listeners, m))
  }

  /** The single funnel for notified alarm changes: persist, then tell every listener. */
  function SetAlarmStatus(s: Service, status: AlarmStatus): (r: Service)
    ensures r.repo == s.repo.(alarm := status)
    ensures Extends(s, r)
    ensures Since(s, r) == [Wrote(Repository.AlarmWrite(status))] + FanOut(s.listeners, StatusChanged(status))
  {
    var s1 := Persist(s, Repository.AlarmWrite(status));
    var s2 := Broadcast(s1, StatusChanged(status));
    ExtendsTrans(s, s1, s2);
    s2
  }

  /**
   * Arming writes the store directly: the alarm becomes NoAlarm when disarming
   * and PendingAlarm for either armed mode; sensors are left as they are and
   * no listener hears of it.
   */
  function SetArmingStatus(s: Service, arming: ArmingStatus): (r: Service)
    ensures r.repo.arming == arming
    ensures r.repo.alarm == NoAlarm <==> arming == Disarmed
    ensures r.repo.alarm == PendingAlarm <==> IsArmed(arming)
    ensures r.repo.sensors == s.repo.sensors
    ensures Extends(s, r)
    ensures Since(s, r) == [Wrote(Repository.AlarmWrite(r.repo.alarm)), Wrote(Repository.ArmingWrite(arming))]
  {
    var alarm := if arming == Disarmed then NoAlarm else PendingAlarm;
    var s1 := Persist(s, Repository.AlarmWrite(alarm));
    var s2 := Persist(s1, Repository.ArmingWrite(arming));
    ExtendsTrans(s, s1, s2);
    s2
  }

  /**
   * The guard `cat && armedHome || cat` reduces to `cat`: a cat raises the
   * alarm in every arming mode and its absence clears it. The alarm change is
   * persisted and announced first, then the raw result is broadcast.
   */
  function CatDetected(s: Service, cat: bool): (r: Reply)
    ensures r.status == Alarm <==> cat
    ensures r.status == NoAlarm <==> !cat
    ensures r.service.repo == s.repo.(alarm := r.status)
    ensures Extends(s, r.service)
    ensures Since(s, r.service)
         == [Wrote(Repository.AlarmWrite(r.status))]
          + FanOut(s.listeners, StatusChanged(r.status))
          + FanOut(s.listeners, CatSeen(cat))
  {
    var raised := (cat && s.repo.arming == ArmedHome) || cat;
    var status := if raised then Alarm else NoAlarm;
    var s1 := SetAlarmStatus(s, status);
    var s2 := Broadcast(s1, CatSeen(cat));
    ExtendsTrans(s, s1, s2);
    Reply(s2, status)
  }

  /** Registration is a set insertion; it neither replays past events nor touches the store. */
  function AddStatusListener(s: Service, l: ListenerId): (r: Service)
    ensures l in r.listeners
    ensures forall x :: x in r.listeners <==> x in s.listeners || x == l
    ensures l in s.listeners ==> r == s
    ensures r.repo == s.repo && r.trace == s.trace
  {
    if l in s.listeners then s
    else
      var ls := s.listeners + [l];
      assert forall i :: 0 <= i < |s.listeners| ==> ls[i] == s.listeners[i];
      s.(listeners := ls)
  }

  /**
   * De-escalation by one level through the notifying funnel: PendingAlarm
   * becomes NoAlarm, Alarm becomes PendingAlarm; NoAlarm writes and tells nothing.
   */
  function HandleSensorDeactivated(s: Service): (r: Service)
    ensures Severity(r.repo.alarm) == if s.repo.alarm == NoAlarm then 0 else Severity(s.repo.alarm) - 1
    ensures r.repo.arming == s.repo.arming && r.repo.sensors == s.repo.sensors
    ensures s.repo.alarm == NoAlarm ==> r == s
    ensures s.repo.alarm != NoAlarm ==> r == SetAlarmStatus(s, r.repo.alarm)
  {
    match s.repo.alarm
    case PendingAlarm => SetAlarmStatus(s, NoAlarm)
    case Alarm => SetAlarmStatus(s, PendingAlarm)
    case NoAlarm => s
  }

  /**
   * The alarm handling a toggle performs before it stores the sensor, judged
   * on the old flag: when the alarm is pending and the sensor was inactive,
   * or when it is sounding while disarmed, it drops one level through the
   * notifying setter; otherwise nothing happens.
   */
  function ReactToSensorChange(s: Service, sensor: Sensor): (r: Service)
    ensures r.repo.sensors == s.repo.sensors && r.repo.arming == s.repo.arming
    ensures r.repo.alarm != s.repo.alarm
        <==> (s.repo.alarm == PendingAlarm && !sensor.active) || (s.repo.alarm == Alarm && s.repo.arming == Disarmed)
    ensures r.repo.alarm != s.repo.alarm ==> Severity(r.repo.alarm) == Severity(s.repo.alarm) - 1
    ensures Extends(s, r)
    ensures Since(s, r)
         == if r.repo.alarm != s.repo.alarm
            then [Wrote(Repository.AlarmWrite(r.repo.alarm))] + FanOut(s.listeners, StatusChanged(r.repo.alarm))
            else []
  {
    if s.repo.alarm == PendingAlarm && !sensor.active then HandleSensorDeactivated(s)
    else if s.repo.alarm == Alarm && s.repo.arming == Disarmed then HandleSensorDeactivated(s)
    else s
  }

  /**
   * A sensor toggle. The alarm de-escalates one level exactly when it is
   * pending and the sensor was inactive before the call, or when it is
   * sounding while disarmed; the sensor is then stored with its new flag.
   */
  function ChangeSensorActivationStatus(s: Service, sensor: Sensor, active: bool): (r: Service)
    ensures r.repo.sensors == s.repo.sensors[sensor.key := active]
    ensures r.repo.arming == s.repo.arming
    ensures r.repo.alarm != s.repo.alarm
        <==> (s.repo.alarm == PendingAlarm && !sensor.active) || (s.repo.alarm == Alarm && s.repo.arming == Disarmed)
    ensures r.repo.alarm != s.repo.alarm ==> Severity(r.repo.alarm) == Severity(s.repo.alarm) - 1
    ensures Severity(r.repo.alarm) <= Severity(s.repo.alarm)
    ensures Extends(s, r) && |r.trace| > |s.trace|
    ensures r.trace[|r.trace| - 1] == Wrote(Repository.SensorUpdated(Sensor(sensor.key, active)))
    ensures Since(s, r)
         == (if r.repo.alarm != s.repo.alarm
             then [Wrote(Repository.AlarmWrite(r.repo.alarm))] + FanOut(s.listeners, StatusChanged(r.repo.alarm))
             else [])
          + [Wrote(Repository.SensorUpdated(Sensor(sensor.key, active)))]
  {
    var s1 := ReactToSensorChange(s, sensor);
    var u := Repository.SensorUpdated(Sensor(sensor.key, active));
    Repository.UpdateIsReplace(s1.repo, Sensor(sensor.key, active));
    var r := Persist(s1, u);
    ExtendsTrans(s, s1, r);
    r
  }

  /** The camera entry point: the classifier's verdict at the fixed threshold feeds cat detection. */
  function ProcessImage(s: Service, imageContainsCat: real -> bool): (r: Service)
    ensures r.repo.alarm == Alarm <==> imageContainsCat(CatConfidenceThreshold)
    ensures r.repo.alarm == NoAlarm <==> !imageContainsCat(CatConfidenceThreshold)
    ensures r.repo.arming == s.repo.arming && r.repo.sensors == s.repo.sensors
    ensures Extends(s, r) && |r.trace| >= |s.trace| + |s.listeners|
    ensures r.trace[|r.trace| - |s.listeners|..] == FanOut(s.listeners, CatSeen(imageContainsCat(CatConfidenceThreshold)))
    ensures Since(s, r)
         == [Wrote(Repository.AlarmWrite(r.repo.alarm))]
          + FanOut(s.listeners, StatusChanged(r.repo.alarm))
          + FanOut(s.listeners, CatSeen(imageContainsCat(CatConfidenceThreshold)))
  {
    CatDetected(s, imageContainsCat(CatConfidenceThreshold)).service
  }

  /** Delegation to the store's set insertion, logged; the statuses are untouched and nobody is told. */
  function AddSensor(s: Service, sensor: Sensor): (r: Service)
    ensures r.repo == Repository.AddSensor(s.repo, sensor)
    ensures sensor.key in r.repo.sensors
    ensures r.repo.sensors.Keys == s.repo.sensors.Keys + {sensor.key}
    ensures r.repo.alarm == s.repo.alarm && r.repo.arming == s.repo.arming
    ensures Extends(s, r) && Since(s, r) == [Wrote(Repository.SensorAdded(sensor))]
  {
    Persist(s, Repository.SensorAdded(sensor))
  }

  /** Delegation to the store's set removal, logged; the statuses are untouched and nobody is told. */
  function RemoveSensor(s: Service, sensor: Sensor): (r: Service)
    ensures r.repo == Repository.RemoveSensor(s.repo, sensor)
    ensures sensor.key !in r.repo.sensors
    ensures r.repo.sensors.Keys == s.repo.sensors.Keys - {sensor.key}
    ensures r.repo.alarm == s.repo.alarm && r.repo.arming == s.repo.arming
    ensures Extends(s, r) && Since(s, r) == [Wrote(Repository.SensorRemoved(sensor))]
  {
    Persist(s, Repository.SensorRemoved(sensor))
  }
}
