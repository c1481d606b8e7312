/** Properties of the engine that relate several calls or several operations. */
module Properties {
  import opened Status
  import opened Sensors
  import Repository
  import opened Events
  import opened Engine
  import opened Decisions

  // ---------------------------------------------------------------------
  // Notification fan-out

  /** Every registered listener hears a new alarm status exactly once, after the single write. */
  lemma {:induction false} SetAlarmStatusNotifiesEachOnce(s: Service, status: AlarmStatus, l: ListenerId)
    ensures var r := SetAlarmStatus(s, status);
      && Writes(Since(s, r)) == [Repository.AlarmWrite(status)]
      && Occurrences(Since(s, r), Delivered(l, StatusChanged(status))) == if l in s.listeners then 1 else 0
  {
    var r := SetAlarmStatus(s, status);
    var w := Repository.AlarmWrite(status);
    var f := FanOut(s.listeners, StatusChanged(status));
    WritesConcat([Wrote(w)], f);
    FanOutWritesNothing(s.listeners, StatusChanged(status), s.repo);
    OccurrencesConcat([Wrote(w)], f, Delivered(l, StatusChanged(status)));
    FanOutDeliversOnce(s.listeners, StatusChanged(status), l, StatusChanged(status));
  }

  /** Cat detection appends one alarm write, then the status fan-out, then the cat fan-out. */
  lemma {:induction false} CatDetectedShape(s: Service, cat: bool)
    ensures var r := CatDetected(s, cat);
      && Writes(Since(s, r.service)) == [Repository.AlarmWrite(r.status)]
      && Replay(s.repo, Since(s, r.service)) == r.service.repo
  {
    var r := CatDetected(s, cat);
    var w := [Wrote(Repository.AlarmWrite(r.status))];
    var f1 := FanOut(s.listeners, StatusChanged(r.status));
    var f2 := FanOut(s.listeners, CatSeen(cat));
    WritesConcat(w, f1);
    WritesConcat(w + f1, f2);
    FanOutWritesNothing(s.listeners, StatusChanged(r.status), s.repo);
    FanOutWritesNothing(s.listeners, CatSeen(cat), s.repo);
    ReplayConcat(s.repo, w + f1, f2);
    ReplayConcat(s.repo, w, f1);
    FanOutWritesNothing(s.listeners, StatusChanged(r.status), s.repo.(alarm := r.status));
    FanOutWritesNothing(s.listeners, CatSeen(cat), s.repo.(alarm := r.status));
  }

  /** Cat detection tells each registered listener the new status once and the raw result once. */
  lemma {:induction false} CatDetectedNotifiesEachOnce(s: Service, cat: bool, l: ListenerId)
    ensures var r := CatDetected(s, cat);
      && Extends(s, r.service)
      && Occurrences(Since(s, r.service), Delivered(l, StatusChanged(r.status))) == (if l in s.listeners then 1 else 0)
      && Occurrences(Since(s, r.service), Delivered(l, CatSeen(cat))) == (if l in s.listeners then 1 else 0)
  {
    var r := CatDetected(s, cat);
    AnnouncedTwiceCounts(Repository.AlarmWrite(r.status), s.listeners, StatusChanged(r.status), CatSeen(cat), l);
  }

  /** Every status delivery of cat detection comes before every cat delivery. */
  lemma {:induction false} CatDetectedStatusBeforeCat(s: Service, cat: bool)
    ensures var r := CatDetected(s, cat); var es := Since(s, r.service);
      && Extends(s, r.service)
      && DeliveredBefore(es, StatusChanged(r.status), CatSeen(cat))
  {
    var r := CatDetected(s, cat);
    AnnouncedTwiceOrder(Repository.AlarmWrite(r.status), s.listeners, StatusChanged(r.status), CatSeen(cat));
  }

  /** A listener registered late hears the next alarm change exactly once and nothing from before. */
  lemma {:induction false} LateListenerHearsNextChange(s: Service, l: ListenerId, status: AlarmStatus)
    ensures var s1 := AddStatusListener(s, l);
      && s1.trace == s.trace
      && Occurrences(Since(s1, SetAlarmStatus(s1, status)), Delivered(l, StatusChanged(status))) == 1
  {
    var s1 := AddStatusListener(s, l);
    SetAlarmStatusNotifiesEachOnce(s1, status, l);
  }

  /** Registering twice is registering once. */
  lemma AddStatusListenerIdempotent(s: Service, l: ListenerId)
    ensures AddStatusListener(AddStatusListener(s, l), l) == AddStatusListener(s, l)
  {
  }

  // ---------------------------------------------------------------------
  // Arming

  /**
   * The status `noAlarm` answers is the one arming stores; arming twice with
   * the same mode leaves the store as arming once; arming informs no listener.
   */
  lemma {:induction false} ArmingAgreesWithNoAlarmFor(s: Service, arming: ArmingStatus)
    ensures SetArmingStatus(s, arming).repo.alarm == NoAlarmFor(arming)
    ensures SetArmingStatus(SetArmingStatus(s, arming), arming).repo == SetArmingStatus(s, arming).repo
    ensures forall e :: e in Since(s, SetArmingStatus(s, arming)) ==> !e.Delivered?
  {
  }

  /** Arming does not clear sensors: an active sensor is still active afterwards. */
  lemma ArmingKeepsActiveSensors(s: Service, arming: ArmingStatus, k: SensorKey)
    requires k in s.repo.sensors && s.repo.sensors[k]
    ensures k in SetArmingStatus(s, arming).repo.sensors && SetArmingStatus(s, arming).repo.sensors[k]
  {
  }

  // ---------------------------------------------------------------------
  // Cat detection

  /** The outcome of cat detection does not depend on the arming status. */
  lemma CatDetectedIgnoresArming(s: Service, other: ArmingStatus, cat: bool)
    ensures var t := s.(repo := s.repo.(arming := other));
      && CatDetected(t, cat).status == CatDetected(s, cat).status
      && CatDetected(t, cat).service.repo.alarm == CatDetected(s, cat).service.repo.alarm
      && Since(t, CatDetected(t, cat).service) == Since(s, CatDetected(s, cat).service)
  {
  }

  /**
   * Armed away with the front door active, a negative detection still clears
   * the alarm: active sensors are not consulted.
   */
  lemma CatAbsentClearsAlarmDespiteActiveSensor(ls: Registry)
    ensures var front := SensorKey("front door", Door);
      var s := NewService(Repository.Repo(map[front := true], Alarm, ArmedAway)).(listeners := ls);
      CatDetected(s, false).status == NoAlarm && CatDetected(s, false).service.repo.alarm == NoAlarm
  {
  }

  // ---------------------------------------------------------------------
  // Sensor changes

  /**
   * A toggle issues exactly one sensor update, as its last write, preceded by
   * one alarm write when the alarm de-escalates and by none otherwise.
   */
  lemma {:induction false} ChangeSensorWrites(s: Service, sensor: Sensor, active: bool)
    ensures var r := ChangeSensorActivationStatus(s, sensor, active);
      Extends(s, r) && Writes(Since(s, r))
        == (if r.repo.alarm != s.repo.alarm then [Repository.AlarmWrite(r.repo.alarm)] else [])
         + [Repository.SensorUpdated(Sensor(sensor.key, active))]
  {
    var r := ChangeSensorActivationStatus(s, sensor, active);
    var s1 := ReactToSensorChange(s, sensor);
    var u := Repository.SensorUpdated(Sensor(sensor.key, active));
    assert r == Persist(s1, u);
    ReactionIsLogged(s, sensor);
    ExtendsTrans(s, s1, r);
    assert Since(s1, r) == [Wrote(u)];
    WritesOne(u);
    WritesConcat(Since(s, s1), Since(s1, r));
    var pre := if s1.repo.alarm != s.repo.alarm then [Repository.AlarmWrite(s1.repo.alarm)] else [];
    assert Writes(Since(s, s1)) == pre;
    assert r.repo.alarm == s1.repo.alarm;
    assert (if r.repo.alarm != s.repo.alarm then [Repository.AlarmWrite(r.repo.alarm)] else []) == pre;
    assert Writes(Since(s, r)) == pre + [u];
  }

  /** The alarm handling of a toggle writes the alarm once when it de-escalates, else nothing. */
  lemma {:induction false} ReactionIsLogged(s: Service, sensor: Sensor)
    ensures var r := ReactToSensorChange(s, sensor);
      && Extends(s, r)
      && Writes(Since(s, r)) == (if r.repo.alarm != s.repo.alarm then [Repository.AlarmWrite(r.repo.alarm)] else [])
      && Replay(s.repo, Since(s, r)) == r.repo
      && r.repo.sensors == s.repo.sensors
  {
    var r := ReactToSensorChange(s, sensor);
    if r == s {
      assert Since(s, r) == [];
    } else {
      HandleSensorDeactivatedWrites(s);
      DeactivationIsLogged(s);
    }
  }

  /** With the alarm sounding and the system armed, a toggle writes no alarm status. */
  lemma ToggleWhileArmedAlarmWritesNoAlarm(s: Service, sensor: Sensor, active: bool)
    requires s.repo.alarm == Alarm && IsArmed(s.repo.arming)
    ensures var r := ChangeSensorActivationStatus(s, sensor, active);
      && r.repo.alarm == Alarm
      && Writes(Since(s, r)) == [Repository.SensorUpdated(Sensor(sensor.key, active))]
  {
    ChangeSensorWrites(s, sensor, active);
  }

  /** Deactivation handling writes the alarm once, or not at all from NoAlarm. */
  lemma {:induction false} HandleSensorDeactivatedWrites(s: Service)
    ensures var r := HandleSensorDeactivated(s);
      && Extends(s, r)
      && Writes(Since(s, r)) == if s.repo.alarm == NoAlarm then [] else [Repository.AlarmWrite(r.repo.alarm)]
  {
    var r := HandleSensorDeactivated(s);
    if s.repo.alarm != NoAlarm {
      SetAlarmStatusNotifiesEachOnce(s, r.repo.alarm, 0);
    } else {
      assert Since(s, r) == [];
    }
  }

  // ---------------------------------------------------------------------
  // Decision helpers against each other

  /** For an active sensor `changeToPending` and `noAlarm` agree; an inactive one never pends. */
  lemma ChangeToPendingMatchesNoAlarmFor(k: SensorKey, arming: ArmingStatus)
    ensures ChangeToPending(Sensor(k, true), arming) == NoAlarmFor(arming)
    ensures ChangeToPending(Sensor(k, false), arming) == NoAlarm
  {
  }

  /** While armed, asking to activate answers what `changeToAlarm` answers. */
  lemma SensorAlreadyActivatedMatchesChangeToAlarm(sensor: Sensor, arming: ArmingStatus, alarm: AlarmStatus)
    requires IsArmed(arming)
    ensures SensorAlreadyActivated(sensor, true, alarm) == ChangeToAlarm(arming, sensor, alarm)
  {
  }

  /** Without a cat, the scan-then-detect helper answers what the scan answers from PendingAlarm. */
  lemma NoCatScanMatchesNoAlarmSet(s: Service, sensors: SensorSet)
    ensures NoCatNoAlarmSet(s, false, sensors).status == NoAlarmSet(PendingAlarm, sensors)
  {
  }

  /** Two inactive doors clear a pending alarm; two active doors keep it pending. */
  lemma FrontAndBackDoorScan()
    ensures var front := SensorKey("Front Door", Door);
      var back := SensorKey("Back Door", Door);
      && NoAlarmSet(PendingAlarm, map[front := false, back := false]) == NoAlarm
      && NoAlarmSet(PendingAlarm, map[front := true, back := true]) == PendingAlarm
      && NoAlarmSet(NoAlarm, map[front := true, back := true]) == PendingAlarm
  {
    var front := SensorKey("Front Door", Door);
    var back := SensorKey("Back Door", Door);
    assert map[front := true, back := true][front];
  }

  // ---------------------------------------------------------------------
  // Runs of operations

  /** The engine's operations as commands, so that runs of them can be stated. */
  datatype Command =
    | Arm(arming: ArmingStatus)
    | SetAlarm(status: AlarmStatus)
    | Cat(cat: bool)
    | Deactivated
    | Toggle(sensor: Sensor, active: bool)
    | Listen(listener: ListenerId)
    | Add(sensor: Sensor)
    | Remove(sensor: Sensor)
    | NoCatScan(cat: bool, sensors: SensorSet)
    | Reset(arming: ArmingStatus, order: seq<SensorKey>)

  function Run(s: Service, c: Command): Service {
    match c
    case Arm(m) => SetArmingStatus(s, m)
    case SetAlarm(a) => SetAlarmStatus(s, a)
    case Cat(b) => CatDetected(s, b).service
    case Deactivated => HandleSensorDeactivated(s)
    case Toggle(sensor, active) => ChangeSensorActivationStatus(s, sensor, active)
    case Listen(l) => AddStatusListener(s, l)
    case Add(sensor) => AddSensor(s, sensor)
    case Remove(sensor) => RemoveSensor(s, sensor)
    case NoCatScan(b, sensors) => NoCatNoAlarmSet(s, b, sensors).service
    case Reset(m, order) => if IsArmed(m) then StoreResets(s, order) else s
  }

  function RunAll(s: Service, cs: seq<Command>): Service
    decreases |cs|
  {
    if cs == [] then s else RunAll(Run(s, cs[0]), cs[1..])
  }

  /** Every operation only appends to the trace, and replaying what it appended explains its store. */
  lemma {:induction false} RunIsLogged(s: Service, c: Command)
    ensures Explained(s, Run(s, c))
  {
    match c
    case Arm(m) => ArmIsLogged(s, m);
    case SetAlarm(a) => SetAlarmIsLogged(s, a);
    case Cat(b) => CatDetectedShape(s, b);
    case Deactivated => DeactivationIsLogged(s);
    case Toggle(sensor, active) => ToggleIsLogged(s, sensor, active);
    case Listen(l) => assert Since(s, Run(s, c)) == [];
    case Add(sensor) => PersistIsExplained(s, Repository.SensorAdded(sensor));
    case Remove(sensor) => PersistIsExplained(s, Repository.SensorRemoved(sensor));
    case NoCatScan(b, sensors) =>
      if !(!b && AnyActive(sensors)) {
        CatDetectedShape(s, b);
      } else {
        assert Since(s, Run(s, c)) == [];
      }
    case Reset(m, order) =>
      if IsArmed(m) {
        StoreResetsExplained(s, order);
      } else {
        assert Since(s, Run(s, c)) == [];
      }
  }

  /** A reset's updates, visited in any order, are all logged and explain the store. */
  lemma {:induction false} StoreResetsExplained(s: Service, ks: seq<SensorKey>)
    ensures Explained(s, StoreResets(s, ks))
  {
    if ks == [] {
      assert Since(s, s) == [];
    } else {
      var init := ks[..|ks| - 1];
      StoreResetsExplained(s, init);
      var p := StoreResets(s, init);
      PersistIsExplained(p, Repository.SensorUpdated(Sensor(ks[|ks| - 1], false)));
      ExplainedTrans(s, p, StoreResets(s, ks));
    }
  }

  lemma {:induction false} ArmIsLogged(s: Service, arming: ArmingStatus)
    ensures Explained(s, SetArmingStatus(s, arming))
  {
    var alarm := if arming == Disarmed then NoAlarm else PendingAlarm;
    var s1 := Persist(s, Repository.AlarmWrite(alarm));
    PersistIsExplained(s, Repository.AlarmWrite(alarm));
    PersistIsExplained(s1, Repository.ArmingWrite(arming));
    ExplainedTrans(s, s1, Persist(s1, Repository.ArmingWrite(arming)));
  }

  lemma {:induction false} SetAlarmIsLogged(s: Service, status: AlarmStatus)
    ensures Explained(s, SetAlarmStatus(s, status))
  {
    var s1 := Persist(s, Repository.AlarmWrite(status));
    PersistIsExplained(s, Repository.AlarmWrite(status));
    FanOutWritesNothing(s.listeners, StatusChanged(status), s1.repo);
    ExplainedTrans(s, s1, Broadcast(s1, StatusChanged(status)));
  }

  lemma {:induction false} ToggleIsLogged(s: Service, sensor: Sensor, active: bool)
    ensures Explained(s, ChangeSensorActivationStatus(s, sensor, active))
  {
    var s1 := ReactToSensorChange(s, sensor);
    var u := Repository.SensorUpdated(Sensor(sensor.key, active));
    ReactionIsLogged(s, sensor);
    PersistIsExplained(s1, u);
    ExplainedTrans(s, s1, Persist(s1, u));
  }

  /** `after` only appended to the trace of `before`, and its appended writes account for its store. */
  predicate Explained(before: Service, after: Service) {
    && |before.trace| <= |after.trace|
    && after.trace[..|before.trace|] == before.trace
    && Replay(before.repo, Since(before, after)) == after.repo
  }

  lemma {:induction false} ExplainedTrans(a: Service, b: Service, c: Service)
    requires Explained(a, b) && Explained(b, c)
    ensures Explained(a, c)
  {
    assert c.trace[..|a.trace|] == c.trace[..|b.trace|][..|a.trace|];
    assert Since(a, c) == Since(a, b) + Since(b, c);
    ReplayConcat(a.repo, Since(a, b), Since(b, c));
  }

  lemma PersistIsExplained(s: Service, w: Repository.Write)
    ensures Explained(s, Persist(s, w))
  {
    assert Since(s, Persist(s, w))[1..] == [];
  }

  /** Deactivation handling is explained by its own log. */
  lemma {:induction false} DeactivationIsLogged(s: Service)
    ensures var r := HandleSensorDeactivated(s);
      Extends(s, r) && Replay(s.repo, Since(s, r)) == r.repo
  {
    var r := HandleSensorDeactivated(s);
    if s.repo.alarm != NoAlarm {
      FanOutWritesNothing(s.listeners, StatusChanged(r.repo.alarm), s.repo.(alarm := r.repo.alarm));
    } else {
      assert Since(s, r) == [];
    }
  }

  /**
   * Starting from any loaded store, after any run of operations the store is
   * exactly the replay of the logged writes: no operation changes the store
   * without logging the write.
   */
  lemma {:induction false} LogExplainsState(initial: Repository.Repo, cs: seq<Command>)
    ensures RunAll(NewService(initial), cs).repo == Replay(initial, RunAll(NewService(initial), cs).trace)
  {
    LogExplainsStateFrom(initial, NewService(initial), cs);
  }

  lemma {:induction false} LogExplainsStateFrom(initial: Repository.Repo, s: Service, cs: seq<Command>)
    requires s.repo == Replay(initial, s.trace)
    ensures RunAll(s, cs).repo == Replay(initial, RunAll(s, cs).trace)
    decreases |cs|
  {
    if cs != [] {
      var r := Run(s, cs[0]);
      RunIsLogged(s, cs[0]);
      ReplayAppended(initial, s, r);
      LogExplainsStateFrom(initial, r, cs[1..]);
    }
  }

  /** A state explained by the log stays explained after a logged step. */
  lemma {:induction false} ReplayAppended(initial: Repository.Repo, s: Service, r: Service)
    requires s.repo == Replay(initial, s.trace)
    requires Explained(s, r)
    ensures r.repo == Replay(initial, r.trace)
  {
    var appended := r.trace[|s.trace|..];
    assert r.trace == s.trace + appended;
    ReplayConcat(initial, s.trace, appended);
  }

  /** Only sensor toggles. */
  predicate AllToggles(cs: seq<Command>) {
    forall i :: 0 <= i < |cs| ==> cs[i].Toggle?
  }

  /** No run of sensor toggles ever raises the alarm's severity, and none changes the arming. */
  lemma {:induction false} TogglesNeverEscalate(s: Service, cs: seq<Command>)
    requires AllToggles(cs)
    ensures Severity(RunAll(s, cs).repo.alarm) <= Severity(s.repo.alarm)
    ensures RunAll(s, cs).repo.arming == s.repo.arming
    decreases |cs|
  {
    if cs != [] {
      assert AllToggles(cs[1..]);
      TogglesNeverEscalate(Run(s, cs[0]), cs[1..]);
    }
  }

  /** A toggle command runs the sensor toggle. */
  lemma RunToggle(s: Service, c: Command)
    requires c.Toggle?
    ensures Run(s, c) == ChangeSensorActivationStatus(s, c.sensor, c.active)
  {
  }

  /** `after` extends `before`, the alarm is sounding, and only sensor updates were written in between. */
  predicate SoundingKept(before: Service, after: Service) {
    && Extends(before, after)
    && after.repo.alarm == Alarm
    && forall w :: w in Writes(Since(before, after)) ==> w.SensorUpdated?
  }

  lemma {:induction false} SoundingKeptTrans(a: Service, b: Service, c: Service)
    requires SoundingKept(a, b) && SoundingKept(b, c)
    ensures SoundingKept(a, c)
  {
    ExtendsTrans(a, b, c);
    WritesConcat(Since(a, b), Since(b, c));
  }

  /**
   * While armed, a sounding alarm survives any run of sensor toggles, and the
   * run writes nothing but sensor updates.
   */
  lemma {:induction false} ArmedAlarmIgnoresToggles(s: Service, cs: seq<Command>)
    requires AllToggles(cs)
    requires s.repo.alarm == Alarm && IsArmed(s.repo.arming)
    ensures var r := RunAll(s, cs);
      && Extends(s, r)
      && r.repo.alarm == Alarm
      && forall w :: w in Writes(Since(s, r)) ==> w.SensorUpdated?
    decreases |cs|
  {
    var r := RunAll(s, cs);
    if cs == [] {
      assert Since(s, r) == [];
    } else {
      var s1 := ChangeSensorActivationStatus(s, cs[0].sensor, cs[0].active);
      RunToggle(s, cs[0]);
      assert r == RunAll(s1, cs[1..]);
      ToggleWhileArmedAlarmWritesNoAlarm(s, cs[0].sensor, cs[0].active);
      assert SoundingKept(s, s1);
      assert AllToggles(cs[1..]);
      ArmedAlarmIgnoresToggles(s1, cs[1..]);
      SoundingKeptTrans(s, s1, r);
    }
  }
}
