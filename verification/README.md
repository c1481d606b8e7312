# CatPoint alarm engine in Dafny

This project models the alarm decision engine of the CatPoint home security
panel. The engine is the `SecurityService` class. It combines three inputs
into one alarm status (`NoAlarm`, `PendingAlarm`, `Alarm`):

- the user's arming mode (`Disarmed`, `ArmedHome`, `ArmedAway`);
- sensor activation changes;
- cat-detection results from the camera.

The engine also tells its registered status listeners about changes. The
state it reads and writes lives in an in-memory store
(`PretendDatabaseSecurityRepositoryImpl`). The store holds an alarm status,
an arming status and a set of sensors.

The model is functional. The service state is an immutable record (`Engine.Service`) holding:

- the store (`Repository.Repo`);
- the registered listeners (`Events.Registry`);
- a trace of effects.

Every operation except the sensor reset is a total function that returns
the new state. Operations that answer an alarm status also return that
status (`Engine.Reply`). The reset is a method (`Decisions.ResetTheSensors`).
It visits the sensors in an order it chooses freely, because the source
iterates the caller's `Set`, whose order is not specified. It reports that order, and its result equals
`Decisions.StoreResets` applied in that order. The
trace has two kinds of effect:

- `Wrote(w)`: one mutating call on the store.
- `Delivered(l, m)`: one listener callback, either `StatusChanged(status)`
  or `CatSeen(cat)`.

"No write happened" and "each listener was told once" are therefore
statements about the trace. `Events.Replay` re-applies the logged writes.
`Properties.LogExplainsState` covers any run of the commands in
`Properties.Command`. These are every state-changing operation of the
service, including the reset in whatever order it visits the sensors. It
shows that, after such a run, replaying the logged writes on the initial
store gives exactly the current store.

Files:

- `basics.dfy`: `Option` and a duplicate-free predicate.
- `status.dfy`: the status enumerations and the severity order.
- `sensors.dfy`: sensor identity, sensor values and sensor sets. A sensor set is a map from identity to the `active` flag.
- `repository.dfy`: the in-memory store, with its loading defaults, set operations, setters and the constant-answer query methods.
- `events.dfy`: the listener registry, the fan-out, effects, and replay of writes.
- `engine.dfy`: the service transitions.
- `decisions.dfy`: the decision helpers of the service.
- `properties.dfy`: lemmas that relate several calls or several operations.

## Behaviour as written

Where the code does something a reader might not expect, the model follows
the code:

- `setArmingStatus` (SecurityService.java:37-42) writes `PendingAlarm` for
  either armed mode and `NoAlarm` for `Disarmed`. It writes the store
  directly, so no listener is told. It does not reset sensors and has no
  cat-based escalation.
- The guard of `catDetected` (SecurityService.java:52),
  `cat && arming == ARMED_HOME || cat`, reduces to `cat`. A cat therefore
  raises `Alarm` even when disarmed, and no cat clears the alarm to
  `NoAlarm` even while sensors are active.
- `catDetected` persists and announces the new status first. Only then does
  it broadcast the raw result. No cat-presence flag exists in the store.
- `changeSensorActivationStatus` (SecurityService.java:147-156) only ever
  de-escalates. The activation ladder (`handleSensorActivated`) is commented
  out. A sounding alarm is modulated by toggles only while disarmed.
- `handleSensorDeactivated` leaves `NoAlarm` alone: there is no write and no
  notification.

## Model

| member | source | states |
|---|---|---|
| Repository.Load | securityModule/src/main/java/catpoint/data/PretendDatabaseSecurityRepositoryImpl.java:31-46 | each status and the sensor set is the stored value if present, else NoAlarm, Disarmed and the empty set |
| Repository.FreshLoadDefaults | securityModule/src/main/java/catpoint/data/PretendDatabaseSecurityRepositoryImpl.java:31-41 | a first-ever load gives NoAlarm, Disarmed and no sensors |
| Repository.AddSensor | securityModule/src/main/java/catpoint/data/PretendDatabaseSecurityRepositoryImpl.java:48-52 | afterwards the sensor is a member and every prior member keeps its flag; adding an already-present identity changes nothing, not even its flag |
| Repository.RemoveSensor | securityModule/src/main/java/catpoint/data/PretendDatabaseSecurityRepositoryImpl.java:54-58 | afterwards the sensor is not a member and all other members remain with their flags; removing an absent sensor is a no-op |
| Repository.UpdateSensor | securityModule/src/main/java/catpoint/data/PretendDatabaseSecurityRepositoryImpl.java:60-65 | remove-then-add leaves the sensor a member with the caller's flag and no other member affected |
| Repository.UpdateIsReplace | securityModule/src/main/java/catpoint/data/PretendDatabaseSecurityRepositoryImpl.java:60-65 | an update is exactly a replacement of one identity's flag; updating a present sensor keeps the set of identities |
| Repository.AddRemoveRoundTrip | securityModule/src/main/java/catpoint/data/PretendDatabaseSecurityRepositoryImpl.java:48-58 | adding is idempotent, and removing undoes adding a sensor that was absent |
| Repository.SetAlarmStatus | securityModule/src/main/java/catpoint/data/PretendDatabaseSecurityRepositoryImpl.java:67-71 | the alarm read back is the one written; arming status and sensors are unchanged |
| Repository.SetArmingStatus | securityModule/src/main/java/catpoint/data/PretendDatabaseSecurityRepositoryImpl.java:73-77 | the arming status read back is the one written; alarm status and sensors are unchanged |
| Repository.PendingAlarmStatusQuery | securityModule/src/main/java/catpoint/data/PretendDatabaseSecurityRepositoryImpl.java:99-102 | answers PendingAlarm for every sensor and arming mode |
| Repository.AlarmStatusQuery | securityModule/src/main/java/catpoint/data/PretendDatabaseSecurityRepositoryImpl.java:104-107 | answers Alarm for every argument list |
| Repository.NoAlarmStatusQuery | securityModule/src/main/java/catpoint/data/PretendDatabaseSecurityRepositoryImpl.java:109-112 | answers NoAlarm for every status and sensor set |
| Repository.SensorAlreadyActivatedQuery | securityModule/src/main/java/catpoint/data/PretendDatabaseSecurityRepositoryImpl.java:114-117 | answers Alarm for every argument list |
| Repository.CatDetectedAlarmStatusQuery | securityModule/src/main/java/catpoint/data/PretendDatabaseSecurityRepositoryImpl.java:120-123 | answers Alarm whether or not a cat was seen |
| Repository.NoCatDetectedQuery | securityModule/src/main/java/catpoint/data/PretendDatabaseSecurityRepositoryImpl.java:125-128 | answers NoAlarm for every argument list |
| Repository.NoAlarmQuery | securityModule/src/main/java/catpoint/data/PretendDatabaseSecurityRepositoryImpl.java:130-133 | answers NoAlarm for every arming mode |
| Repository.ResetSensorsQuery | securityModule/src/main/java/catpoint/data/PretendDatabaseSecurityRepositoryImpl.java:135-138 | hands back its input set unchanged; the store resets nothing |
| Repository.QueriesIgnoreArguments | securityModule/src/main/java/catpoint/data/PretendDatabaseSecurityRepositoryImpl.java:99-138 | each decision query of the store answers the same constant (or its input set) whatever its arguments |
| Events.FanOut | securityModule/src/main/java/catpoint/service/SecurityService.java:82-85 | a fan-out delivers the message to listener i of the registry as its i-th effect, one effect per listener |
| Events.FanOutDeliversOnce | securityModule/src/main/java/catpoint/service/SecurityService.java:24 | because the registry is a set, each registered listener receives a fan-out exactly once and an unregistered one never |
| Events.AnnouncedTwiceCounts | securityModule/src/main/java/catpoint/service/SecurityService.java:54-62 | after a write announced with two different messages, each listener has each message exactly once |
| Events.AnnouncedTwiceOrder | securityModule/src/main/java/catpoint/service/SecurityService.java:54-62 | after a write announced with two messages in turn, all deliveries of the first precede all of the second |
| Engine.SetAlarmStatus | securityModule/src/main/java/catpoint/service/SecurityService.java:82-85 | the store's alarm becomes the argument and nothing else in the store changes; the write is logged first, then one delivery to each listener in registry order |
| Engine.SetArmingStatus | securityModule/src/main/java/catpoint/service/SecurityService.java:37-42 | stored arming equals the argument; stored alarm is NoAlarm iff disarming and PendingAlarm iff arming; sensors untouched; exactly an alarm write then an arming write, no delivery |
| Engine.CatDetected | securityModule/src/main/java/catpoint/service/SecurityService.java:50-64 | stores and returns Alarm iff a cat was seen, else NoAlarm, whatever the arming; the write, then the status fan-out, then the cat fan-out |
| Engine.AddStatusListener | securityModule/src/main/java/catpoint/service/SecurityService.java:70-72 | the listener is registered afterwards and the registry is the old one plus it; already registered means nothing changes; store and trace are untouched |
| Engine.HandleSensorDeactivated | securityModule/src/main/java/catpoint/service/SecurityService.java:103-109 | the alarm drops exactly one severity level, through the notifying setter; from NoAlarm the state is unchanged |
| Engine.NewService | securityModule/src/main/java/catpoint/service/SecurityService.java:26-29 | a new service works on the given store, has no listeners and has done nothing yet, so its empty log explains its store |
| Engine.ReactToSensorChange | securityModule/src/main/java/catpoint/service/SecurityService.java:148-152 | the alarm changes iff (pending and the sensor was inactive) or (sounding and disarmed); it then drops exactly one level and is written once and announced to each listener; otherwise nothing is written or told; sensors and arming untouched |
| Engine.ChangeSensorActivationStatus | securityModule/src/main/java/catpoint/service/SecurityService.java:147-156 | the stored flag of the sensor becomes the argument; the alarm changes iff (pending and the sensor was inactive) or (sounding and disarmed), and then drops exactly one level; the effects are exactly the alarm write and its announcement when it changed, then the sensor update |
| Engine.ProcessImage | securityModule/src/main/java/catpoint/service/SecurityService.java:221-223 | the classifier's verdict at threshold 50 decides the alarm (Alarm iff cat); the effects are exactly the alarm write, the new status to each listener, then the verdict to each listener |
| Engine.AddSensor | securityModule/src/main/java/catpoint/service/SecurityService.java:237-239 | the new store is exactly the store's own insertion (so every existing flag is kept); the sensor is a member; statuses unchanged; exactly one logged store call, the insertion, and no listener told |
| Engine.RemoveSensor | securityModule/src/main/java/catpoint/service/SecurityService.java:241-243 | the new store is exactly the store's own removal (so every remaining flag is kept); the sensor is no longer a member; statuses unchanged; exactly one logged store call, the removal, and no listener told |
| Decisions.ChangeToPending | securityModule/src/main/java/catpoint/service/SecurityService.java:111-119 | PendingAlarm iff the sensor is active and the mode is either armed mode, else NoAlarm |
| Decisions.ChangeToAlarm | securityModule/src/main/java/catpoint/service/SecurityService.java:120-129 | Alarm iff armed, sensor active and the given status pending, else NoAlarm |
| Decisions.NoAlarmSet | securityModule/src/main/java/catpoint/service/SecurityService.java:130-139 | any active sensor gives PendingAlarm; with none active NoAlarm iff the given status is PendingAlarm; never Alarm |
| Decisions.SensorAlreadyActivated | securityModule/src/main/java/catpoint/service/SecurityService.java:157-171 | already active + wish to activate + pending gives Alarm; inactive + no wish returns the given status; every other case gives NoAlarm |
| Decisions.NoAlarmFor | securityModule/src/main/java/catpoint/service/SecurityService.java:189-200 | NoAlarm iff disarmed, PendingAlarm iff armed |
| Decisions.NoCatNoAlarmSet | securityModule/src/main/java/catpoint/service/SecurityService.java:173-187 | no cat and an active sensor gives PendingAlarm with the state untouched; otherwise it is cat detection (NoAlarm stored without a cat, Alarm with one) |
| Decisions.ResetTheSensors | securityModule/src/main/java/catpoint/service/SecurityService.java:201-212 | when armed the same identities come back all inactive, each is stored inactive by exactly one update and nothing else changes; when disarmed the state and set are returned unchanged; the result is the recursive reference `StoreResets` over the reported visiting order |
| Decisions.DeactivateAll | securityModule/src/main/java/catpoint/service/SecurityService.java:205-209 | the loop visits every sensor of the set once, in some order, storing it inactive; the returned set has the same identities, all inactive |
| Decisions.StoreResetsShape | securityModule/src/main/java/catpoint/service/SecurityService.java:205-209 | storing a sequence of sensors as inactive logs one update per sensor, leaves each inactive and every other stored sensor and both statuses as they were |
| Properties.SetAlarmStatusNotifiesEachOnce | securityModule/src/main/java/catpoint/service/SecurityService.java:82-85 | the setter writes once and each registered listener hears the new status exactly once |
| Properties.CatDetectedShape | securityModule/src/main/java/catpoint/service/SecurityService.java:50-64 | cat detection performs exactly one store write, the alarm status, and replaying it gives the new store |
| Properties.CatDetectedNotifiesEachOnce | securityModule/src/main/java/catpoint/service/SecurityService.java:54-62 | each registered listener hears the new status once and the raw cat result once |
| Properties.CatDetectedStatusBeforeCat | securityModule/src/main/java/catpoint/service/SecurityService.java:54-62 | every status delivery of cat detection precedes every cat delivery |
| Properties.LateListenerHearsNextChange | securityModule/src/main/java/catpoint/service/SecurityService.java:70-85 | a newly registered listener gets no replay of past events and hears the next alarm change exactly once |
| Properties.AddStatusListenerIdempotent | securityModule/src/main/java/catpoint/service/SecurityService.java:70-72 | registering twice is registering once |
| Properties.ArmingAgreesWithNoAlarmFor | securityModule/src/main/java/catpoint/service/SecurityService.java:37-42 | arming stores the status `noAlarm` answers for the mode; arming twice equals arming once; no listener is told |
| Properties.ArmingKeepsActiveSensors | securityModule/src/main/java/catpoint/service/SecurityService.java:37-42 | arming does not reset sensors: an active sensor is still active afterwards |
| Properties.CatDetectedIgnoresArming | securityModule/src/main/java/catpoint/service/SecurityService.java:52 | the status, stored alarm and effects of cat detection are the same under every arming mode |
| Properties.CatAbsentClearsAlarmDespiteActiveSensor | securityModule/src/test/java/catpoint/service/SecurityServiceTest.java:306-316 | armed away with the front door active, a negative detection still stores NoAlarm |
| Properties.ChangeSensorWrites | securityModule/src/main/java/catpoint/service/SecurityService.java:147-156 | a toggle makes exactly one sensor update, as its last write, preceded by one alarm write iff the alarm changed |
| Properties.ToggleWhileArmedAlarmWritesNoAlarm | securityModule/src/test/java/catpoint/service/SecurityServiceTest.java:106-111 | with Alarm and an armed mode a toggle writes no alarm status and Alarm remains |
| Properties.HandleSensorDeactivatedWrites | securityModule/src/test/java/catpoint/service/SecurityServiceTest.java:246-253 | deactivation handling writes the alarm once (Alarm to PendingAlarm, PendingAlarm to NoAlarm) and nothing from NoAlarm |
| Properties.ChangeToPendingMatchesNoAlarmFor | securityModule/src/main/java/catpoint/service/SecurityService.java:111-119 | for an active sensor `changeToPending` and `noAlarm` give the same answer; an inactive sensor never yields PendingAlarm |
| Properties.SensorAlreadyActivatedMatchesChangeToAlarm | securityModule/src/main/java/catpoint/service/SecurityService.java:157-171 | while armed, asking to activate a sensor answers what `changeToAlarm` answers |
| Properties.NoCatScanMatchesNoAlarmSet | securityModule/src/main/java/catpoint/service/SecurityService.java:173-187 | without a cat, the scan-then-detect helper answers what the active-sensor scan answers from PendingAlarm |
| Properties.FrontAndBackDoorScan | securityModule/src/test/java/catpoint/service/SecurityServiceTest.java:76-96 | two inactive doors turn a pending alarm into NoAlarm; two active doors give PendingAlarm |
| Properties.StoreResetsExplained | securityModule/src/main/java/catpoint/service/SecurityService.java:205-209 | the updates of a reset, in any visiting order, only append to the trace and their replay gives the new store |
| Properties.RunIsLogged | securityModule/src/main/java/catpoint/data/SecurityRepository.java:11-30 | every state-changing operation of the service, the reset included, only appends to the trace, and the writes it appended account for its store |
| Properties.LogExplainsState | securityModule/src/main/java/catpoint/data/SecurityRepository.java:11-30 | after any run of the service's state-changing operations (the reset included) from a loaded store, the store is exactly the replay of the logged writes |
| Properties.TogglesNeverEscalate | securityModule/src/main/java/catpoint/service/SecurityService.java:147-156 | no run of sensor toggles raises the alarm's severity or changes the arming mode |
| Properties.ArmedAlarmIgnoresToggles | securityModule/src/main/java/catpoint/service/SecurityService.java:147-156 | while armed, Alarm survives any run of toggles, and those toggles write only sensor updates |

## Left out

- Preference persistence and JSON (de)serialisation of the sensor set are I/O and reflection. What an earlier run stored arrives in `Repository.Load` as optional values. The string-to-enum parse is not modelled, nor its failure on a malformed stored value.
- `Sensor.java` is not part of this model. A sensor's identity is assumed to be its name and type, and `active` is its only mutable attribute.
- Java sensors are shared mutable objects; the model passes sensor values. So the model cannot show a caller mutating a stored sensor object in place, and `addSensor` of a present identity keeps the stored flag.
- `FakeImageService` returns a random boolean. `Engine.ProcessImage` instead takes the classifier as an arbitrary function of the confidence threshold. The image itself is opaque.
- The threshold `50.0f` is a `float`; it is modelled as the real 50.0.
- Listener implementations and the UI are not modelled. A listener is an identity in the registry.
- `HashSet` iteration order is unspecified. The registry is one fixed enumeration of the set, and fan-outs follow it.
- `StatusListener.sensorStatusChanged` is never called by the engine, so it has no effect in the model.
- Dead code is left out: `handleSensorActivated`, `removeStatusListener` and `notify(ArmingStatus)` are commented out in the source.
- The `NullPointerException` catch in `handleSensorDeactivated` and null `Boolean` arguments are not modelled. Enums and booleans are total.
- `getSensors()` hands out the store's live set. If a caller passed that set to `resetTheSensors`, the loop would iterate a set that `updateSensor` modifies, and Java would throw `ConcurrentModificationException` once there are two or more sensors. The model takes the set by value, so this failure is not modelled. No call site in the service passes the live set.
- The store's decision queries are not logged, because they do not mutate anything. The engine discards their answers. Mock interaction checks beyond "was or was not written" are not modelled.
- The getters `getAlarmStatus`, `getArmingStatus` and `getSensors` are the fields of `Repository.Repo`. The constructor is `Engine.NewService`.
- The test file calls methods that do not exist in the source (`resetSensors`, `saveArmingStatus`, `handleSensorActivated`, `getCatStatus`, `setCatStatus`). Only the behaviour those tests assert of existing methods is used.
