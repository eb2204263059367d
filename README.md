# Edge alarm engine — a Dafny model

This project models the alarm evaluation engine of an IoT edge gateway. Sensor
readings arrive per device. Each reading is cached and queued. Each queued reading
is then evaluated against the enabled alarm rules of its device. A rule compares
one sensor field with a threshold. A conditional rule also compares a "shunt"
field from the last cached reading of another device. Each rule has a persisted
state machine:

- INACTIVE: no violation.
- ACTIVE: a violation is in progress and its start time is recorded.
- TRIGGERED: the violation has lasted `duration_minutes`.
- ACKNOWLEDGED: set only by `acknowledge_alarm`.

When a rule triggers, an alarm payload is published once and one row is
appended to the history table.

Modules, one per source file:

- `AlarmRules` (`alarm_rule.dfy`): rule kinds, operators, their string
  encodings and round trips, and `validate`.
- `AlarmStates` (`alarm_state.dfy`): statuses and their encoding, and the
  state's dictionary form. It has the class `AlarmState`, whose mutators change
  fields in place. Each mutator is specified by a pure function on `StateView`.
- `Storage` (`storage_service.dfy`): the class `StorageService` with the rules
  and states tables as maps keyed by rule id. The history table is a sequence
  with increasing auto-increment ids. The tables hold the encoded records.
  `Valid()` states that every record decodes under its own key.
- `AlarmNotifications` and `AlarmProcessing` (`alarm_processor.dfy`): the
  payload, the comparisons, the pure one-step function `EvaluateStep`, and
  lemmas over runs of steps. It also has the class `AlarmProcessor`, which
  holds the device cache, the bounded queue (500 slots) and the published
  notifications.
- `MqttTopics` (`mqtt_topics.dfy`): `str.split` and the topic → device id
  function.

The clock is the parameter `now`. Sensor values and thresholds are `real`.
The equality tolerance 1e-6 is the constant `EqualityTolerance`. The duration
test is `(now - violation_start) / 60 >= duration_minutes`. `EvaluateStep`
states it as `now - start >= 60 * duration_minutes`.

Behaviour of the program that the model keeps:

- Clearing publishes nothing and keeps `trigger_time`.
- The state is saved on every evaluation whose sensor field is present,
  whether or not its status changed.
- Only rules whose `device_id` is the reading's device are evaluated. A rule
  whose shunt device sent the reading is not evaluated.
- The cache entry is replaced by the whole message plus `last_update`, with
  no check of the reading's own timestamp.
- `==` and `!=` use the 1e-6 tolerance.
- Deleting an absent rule succeeds.
- A full queue drops the reading.

Quirks kept as written:

- `start_violation` on an ACKNOWLEDGED state leaves both the status and
  `violation_start` as they were.
- A non-violating reading leaves an ACKNOWLEDGED state unchanged.
- `get_all_alarm_rules("")` selects the rules of every device, because an
  empty id is falsy. The topic parser can return `""` (for `sensors//x`), but
  its caller then skips it.

## Model

| member | source | states |
|---|---|---|
| `AlarmRules.ParseAlarmType` | src/models/alarm_rule.py:6-8 | decoding an alarm-type string gives the type whose value it is; unknown strings give None |
| `AlarmRules.ParseOperator` | src/models/alarm_rule.py:10-16 | decoding an operator symbol gives the operator whose value it is; unknown symbols give None |
| `AlarmRules.AlarmTypeEncodingInjective` | src/models/alarm_rule.py:6-8 | distinct alarm types have distinct strings, and decoding a type's string gives the type back |
| `AlarmRules.OperatorEncodingInjective` | src/models/alarm_rule.py:10-16 | distinct operators have distinct symbols, and decoding a symbol gives the operator back |
| `AlarmRules.RuleToDict` | src/models/alarm_rule.py:41-48 | `from_dict(to_dict(r)) == r`; the shunt operator is encoded exactly when present |
| `AlarmRules.RuleFromDict` | src/models/alarm_rule.py:50-57 | decoding succeeds exactly when the type, the operator and a truthy shunt operator are all known strings; identifiers and the enabled flag are copied |
| `AlarmRules.RuleDictRoundTrip` | src/models/alarm_rule.py:41-57 | re-encoding a decoded record gives it back (when its shunt operator is not the empty string) |
| `AlarmRules.Validate` | src/models/alarm_rule.py:72-85 | valid exactly when rule id, device id and sensor field are non-empty, duration > 0, and a conditional rule has shunt device, field, value (0 accepted) and operator |
| `AlarmRules.IsConditional` | src/models/alarm_rule.py:68-70 | a rule is conditional exactly when its stored type string is `conditional_threshold`, and simple otherwise |
| `AlarmRules.SimpleRuleIgnoresShunt` | src/models/alarm_rule.py:80-85 | a simple rule's validity does not depend on any shunt field |
| `AlarmStates.ParseStatus` | src/models/alarm_state.py:7-11 | decoding a status string gives the status whose value it is; unknown strings give None |
| `AlarmStates.StatusEncodingInjective` | src/models/alarm_state.py:7-11 | the status encoding is injective and round-trips |
| `AlarmStates.ToRecord` | src/models/alarm_state.py:34-38 | `from_dict(to_dict(s)) == s` |
| `AlarmStates.FromRecord` | src/models/alarm_state.py:40-44 | decoding succeeds exactly when the status string is known, and keeps the ids |
| `AlarmStates.RecordRoundTrip` | src/models/alarm_state.py:34-44 | re-encoding a decoded record gives it back |
| `AlarmStates.Started` | src/models/alarm_state.py:55-66 | from INACTIVE: ACTIVE with `violation_start = t`; otherwise status and start unchanged; count +1; last violation and value set; shunt value only when given |
| `AlarmStates.Cleared` | src/models/alarm_state.py:68-74 | INACTIVE, no start, no last violation, count 0; `trigger_time` and `last_value` kept |
| `AlarmStates.TriggeredAt` | src/models/alarm_state.py:76-80 | TRIGGERED with `trigger_time = t`; every other field (start, count, last violation, last values, acknowledge time, ids) unchanged |
| `AlarmStates.AcknowledgedAt` | src/models/alarm_state.py:82-86 | ACKNOWLEDGED with `acknowledge_time = t`; every other field (start, trigger time, count, last violation, last values, ids) unchanged |
| `AlarmStates.ViolationActive` | src/models/alarm_state.py:94-96 | a violation is in progress exactly when the stored status is `active` or `triggered` |
| `AlarmStates.ViolationActiveTransitions` | src/models/alarm_state.py:55-96 | a start from INACTIVE and a trigger enter an active violation, a clear and an acknowledgement leave it, another start keeps it as it was |
| `AlarmStates.DurationMinutes` | src/models/alarm_state.py:88-92 | 0 without a start, otherwise 60 × result = t − start |
| `AlarmStates.DurationMonotone` | src/models/alarm_state.py:88-92 | the elapsed minutes never decrease as t grows |
| `AlarmStates.AlarmState.constructor` | src/models/alarm_state.py:13-25 | a new state has the given ids and status and default fields |
| `AlarmStates.AlarmState.FromView` | src/models/alarm_state.py:40-44 | the object built from a decoded record holds exactly its fields |
| `AlarmStates.AlarmState.StartViolation` | src/models/alarm_state.py:55-66 | the object changes in place as `Started` says |
| `AlarmStates.AlarmState.ClearViolation` | src/models/alarm_state.py:68-74 | the object changes in place as `Cleared` says |
| `AlarmStates.AlarmState.TriggerAlarm` | src/models/alarm_state.py:76-80 | the object changes in place as `TriggeredAt` says |
| `AlarmStates.AlarmState.AcknowledgeAlarm` | src/models/alarm_state.py:82-86 | the object changes in place as `AcknowledgedAt` says |
| `AlarmStates.AlarmState.ViolationDurationMinutes` | src/models/alarm_state.py:88-92 | 0 without a start, otherwise 60 × result = t − start, on the object's fields |
| `AlarmStates.AlarmState.IsViolationActive` | src/models/alarm_state.py:94-96 | true exactly while the object's status is ACTIVE or TRIGGERED |
| `AlarmStates.AlarmState.ToDict` | src/models/alarm_state.py:34-38 | the stored form decodes back to the object's state, with the status as its string value |
| `Storage.KeepSince` | src/services/storage_service.py:231-236 | keeps exactly the rows with timestamp ≥ cutoff, and keeps ids increasing |
| `Storage.StorageService.constructor` | src/services/storage_service.py:21-75 | the three tables start empty |
| `Storage.StorageService.SaveAlarmRule` | src/services/storage_service.py:77-99 | upsert by rule id with the rule and its enabled flag; `created_at` kept if present, else now; `updated_at` now; the rule reads back unchanged |
| `Storage.StorageService.GetAlarmRule` | src/services/storage_service.py:101-116 | the stored rule for the id, or None exactly when absent |
| `Storage.StorageService.GetAllAlarmRules` | src/services/storage_service.py:118-135 | each enabled rule of the device (of every device for none or "") exactly once, and nothing else |
| `Storage.StorageService.DeleteAlarmRule` | src/services/storage_service.py:137-152 | removes the rule and its state, nothing else; returns true even when absent |
| `Storage.StorageService.SaveAlarmState` | src/services/storage_service.py:154-174 | upsert by rule id; the state reads back equal to the saved object |
| `Storage.StorageService.GetAlarmState` | src/services/storage_service.py:176-191 | a fresh object equal to the last saved state, or null exactly when none was saved |
| `Storage.StorageService.GetAllAlarmStates` | src/services/storage_service.py:193-206 | every stored state exactly once |
| `Storage.StorageService.SaveAlarmHistory` | src/services/storage_service.py:208-226 | appends exactly one row with the next id; earlier rows unchanged |
| `Storage.StorageService.CleanupOldHistory` | src/services/storage_service.py:228-245 | the history becomes the rows with timestamp ≥ now − days × 86400; other tables unchanged |
| `AlarmNotifications.CreateAlarmData` | src/services/alarm_processor.py:211-240 | the payload carries the rule id, device id, type, description, sensor field, threshold, operator and duration of the rule; the reading; the trigger time and elapsed minutes; `timestamp` now and severity "HIGH"; shunt device, field, reading, threshold and operator exactly for a conditional rule with a shunt reading |
| `AlarmProcessing.EvaluateCondition` | src/services/alarm_processor.py:163-183 | `>`, `<`, `>=`, `<=` as usual; `==` iff within 1e-6; `!=` iff not within 1e-6 |
| `AlarmProcessing.NotEqualNegatesEqual` | src/services/alarm_processor.py:174-177 | `!=` is exactly the negation of `==`, and `==` is symmetric |
| `AlarmProcessing.EvaluateShuntCondition` | src/services/alarm_processor.py:185-209 | (false, None) when the shunt device was never cached or lacks the field; otherwise exactly the cached shunt value, satisfied iff the shunt comparison holds |
| `AlarmProcessing.Violated` | src/services/alarm_processor.py:108-121 | primary comparison alone for simple rules, primary ∧ shunt for conditional rules; never true while the shunt device is uncached |
| `AlarmProcessing.ContinueViolation` | src/services/alarm_processor.py:129-133 | a continuing violation records `last_violation = now`, the value and a given shunt value, and leaves status, start, count, trigger and acknowledge times unchanged |
| `AlarmProcessing.EvaluateStep` | src/services/alarm_processor.py:123-155 | a violating reading records `last_violation = now`, the value and a given shunt value, and adds 1 to the count on a start (none on a continue); a start from INACTIVE sets start = now and cannot trigger when duration ≥ 1; a trigger needs status ≠ TRIGGERED and now − start ≥ 60 × duration; without a trigger `trigger_time` is kept; a clear resets to INACTIVE; otherwise no change |
| `AlarmProcessing.TriggeredStaysQuiet` | src/services/alarm_processor.py:136-147 | once TRIGGERED, a condition that stays true never triggers again |
| `AlarmProcessing.AtMostOneTriggerPerEpisode` | src/services/alarm_processor.py:123-147 | any run of violating readings triggers at most once |
| `AlarmProcessing.ActiveTriggersWhenDurationReached` | src/services/alarm_processor.py:128-147 | an ACTIVE episode triggers exactly once iff some reading comes 60 × duration seconds after its start |
| `AlarmProcessing.EpisodeTriggersOnceIffDurationReached` | src/services/alarm_processor.py:123-147 | from INACTIVE, a violating run triggers exactly once iff some reading is at least 60 × duration after the first, else never |
| `AlarmProcessing.TwoMinuteRuleScenario` | sample_rules_script.py:36-48 | for the sample rule "temperature > 30 for 2 minutes", hot readings at 0, 60 and 90 s trigger nothing, and one more at 120 s triggers exactly once |
| `AlarmProcessing.ClearRestartsTimer` | src/services/alarm_processor.py:123-155 | after a false reading, the next true reading starts a new timer at its own time (unless ACKNOWLEDGED) |
| `AlarmProcessing.ActiveOnly` | src/services/alarm_processor.py:306-307 | keeps exactly the states whose status is ACTIVE or TRIGGERED; if the input has distinct rule ids, so does the result |
| `AlarmProcessing.AllRulesEvaluated` | src/services/alarm_processor.py:70-86 | when the rules fetched are exactly the selected rows, decoded, with distinct ids, the table `RoundStates` leaves is `AlarmsProcessed`: each selected rule with its field present holds its evaluated row, independent of order, and every other row is kept |
| `AlarmProcessing.AlarmOf` | src/services/alarm_processor.py:138-147 | a rule that fires publishes a payload with its own rule id and device id |
| `AlarmProcessing.RoundStatesUntouched` | src/services/alarm_processor.py:76-83 | a row that no evaluated rule owns is left as it was, present or absent |
| `AlarmProcessing.RoundStatesEvaluated` | src/services/alarm_processor.py:76-83 | with distinct rule ids, each rule whose field is present ends with the row its own evaluation wrote from the table before the round |
| `AlarmProcessing.RoundAlarmsSound` | src/services/alarm_processor.py:76-83 | every alarm of a round is the payload of some rule of the round that fires |
| `AlarmProcessing.RoundAlarmsComplete` | src/services/alarm_processor.py:76-83 | every rule of the round that fires has its payload among the round's alarms |
| `AlarmProcessing.RoundAlarmsDistinct` | src/services/alarm_processor.py:76-83 | with distinct rule ids, no rule publishes twice in one round |
| `AlarmProcessing.AllAlarmsPublished` | src/services/alarm_processor.py:70-86 | over the selected rules, the round's alarms are exactly one payload per firing rule, for the device (`AlarmsPublished`) |
| `AlarmProcessing.HistoryRowsConcat` | src/services/storage_service.py:208-226 | recording two runs of alarms in turn numbers the second run on from the first |
| `AlarmProcessing.HistoryFollowsPublished` | src/services/alarm_processor.py:143-147 | history extended by the rows of newly published alarms keeps its old rows and gains one row per alarm, in order, carrying the payload and the next id |
| `AlarmProcessing.DeviceRoundFromRules` | src/services/alarm_processor.py:70-86 | a round over the device's rules is a `DeviceRoundRecorded`: all selected rules evaluated, each trigger published once, and each publication recorded as one history row with the next id |
| `AlarmProcessing.AlarmProcessor.constructor` | src/services/alarm_processor.py:16-37 | empty cache, empty queue, nothing published |
| `AlarmProcessing.AlarmProcessor.ProcessSensorData` | src/services/alarm_processor.py:51-68 | the device's cache entry becomes the reading plus `last_update`, other devices unchanged; queued only while fewer than 500 are waiting |
| `AlarmProcessing.AlarmProcessor.EvaluateAlarmRule` | src/services/alarm_processor.py:88-161 | missing field: nothing stored, published or recorded; otherwise the rule's row becomes the one `EvaluateStep` gives from the stored (or fresh) state and every other row is kept; exactly when the step triggers, the payload `AlarmOf` gives is published once and recorded as one history row under the next id |
| `AlarmProcessing.AlarmProcessor.PublishAndRecord` | src/services/alarm_processor.py:141-147 | the payload is published once and appended to the history as one row with the next id; the rules and states tables are unchanged |
| `AlarmProcessing.AlarmProcessor.LoadState` | src/services/alarm_processor.py:93-100 | the stored state, or a fresh INACTIVE one for the rule |
| `AlarmProcessing.AlarmProcessor.EvaluateRuleCondition` | src/services/alarm_processor.py:108-121 | the effective condition and the shunt reading against the current cache |
| `AlarmProcessing.AlarmProcessor.AdvanceState` | src/services/alarm_processor.py:123-155 | the state object changes in place exactly as `EvaluateStep` says |
| `AlarmProcessing.AlarmProcessor.ProcessDeviceAlarms` | src/services/alarm_processor.py:70-86 | `DeviceRoundRecorded`: every enabled rule of the device whose field is present gets the row `EvaluateStep` gives from its stored state, independent of rule order, and all other rows are kept; exactly the selected rules that trigger publish, each once, for this device; the history gains one row per publication, in order, with that payload and consecutive ids |
| `AlarmProcessing.AlarmProcessor.LoadDeviceRules` | src/services/alarm_processor.py:74 | the fetched rules are exactly the enabled rules of the device, each decoded from its own row, with distinct ids |
| `AlarmProcessing.AlarmProcessor.EvaluateRules` | src/services/alarm_processor.py:76-83 | evaluating rules with distinct ids in turn leaves the states table `RoundStates` and publishes `RoundAlarms` (one payload per firing rule, in order), each recorded as one history row with consecutive ids |
| `AlarmProcessing.AlarmProcessor.ProcessNext` | src/services/alarm_processor.py:252-263 | takes the oldest queued reading and processes that device's rules against it, with the same states, publications and history as `ProcessDeviceAlarms` states; with an empty queue changes nothing |
| `AlarmProcessing.AlarmProcessor.GetActiveAlarms` | src/services/alarm_processor.py:303-310 | exactly the stored states that are ACTIVE or TRIGGERED, each rule at most once |
| `MqttTopics.Split` | src/services/mqtt_service.py:105 | at least one piece, and no piece contains the separator |
| `MqttTopics.SplitJoinRoundTrip` | src/services/mqtt_service.py:105 | joining the pieces with the separator gives the topic back |
| `MqttTopics.SplitWithoutSeparator` | src/services/mqtt_service.py:105 | a string without the separator is one piece |
| `MqttTopics.SplitAtFirstSeparator` | src/services/mqtt_service.py:105 | splitting `a/b` with no separator in `a` gives `a` and then the pieces of `b` |
| `MqttTopics.ExtractDeviceId` | src/services/mqtt_service.py:101-111 | a returned id never contains '/', and comes from a topic whose first segment is `sensors` |
| `MqttTopics.SensorsTopicGivesDevice` | src/services/mqtt_service.py:105-107 | `sensors/<id>` and `sensors/<id>/<anything>` give `<id>` |
| `MqttTopics.TopicWithoutSeparator` | src/services/mqtt_service.py:106-108 | a topic with fewer than two segments gives None |
| `MqttTopics.OtherFirstSegment` | src/services/mqtt_service.py:106-108 | a first segment other than `sensors` gives None |
| `MqttTopics.ExtractedTopicShape` | src/services/mqtt_service.py:104-107 | every topic that gives an id is `sensors/<id>` or `sensors/<id>/<rest>` |
| `MqttTopics.EmptySecondSegment` | src/services/mqtt_service.py:105-107 | `sensors//data` gives the empty id, not None |

## Left out

- Threads, the thread pool, locks, `start`/`stop` and the background loop are not modelled. Processing is sequential, and `ProcessNext` is one turn of that loop. The concurrency claims (per-device ordering, interleavings) are therefore not stated.
- The MQTT client (connect, subscribe, publish, callbacks) is network I/O and is left out. Only `_extract_device_id` is modelled. Published alarms are collected in the `published` sequence, and the alarm callback is taken to be set, as the application sets it.
- SQLite, directory creation and JSON text are replaced by maps and a sequence of decoded records. The swallowed-exception paths are left out. `Valid()` proves that every stored record decodes, so these paths cannot arise from the model's own writes.
- Wall-clock reads become the parameter `now`. `AlarmState.created_at`/`updated_at` are left out because they only record the wall clock.
- Storage.StorageService.constructor: the model always opens a new, empty database with history ids from 1. The original creates its tables only if they do not exist, so reopening a database keeps its rows and id sequence. A restart of the processor is modelled by a new `AlarmProcessor` over the same `StorageService`.
- Storage.StorageService.CleanupOldHistory: the cutoff is `now − days × 86400`. The original subtracts days from a naive local time, which differs by an hour across a daylight-saving change.
- `_load_alarm_states` only logs a count and is left out. `get_device_count` is outside the modelled core.
- Readings map field names to `real`. A JSON `null` field counts as missing. Non-numeric fields, whose comparison raises and is caught, are not modelled. The payload's ISO timestamp is the real `now`.
- IEEE-754 floating point is not modelled: values are exact reals.
- `GetAllAlarmRules` and `GetAllAlarmStates` return rows in an unspecified order, because the queries have no ORDER BY.
- AlarmRules.RuleFromDict: an empty shunt-operator string decodes to None. The original keeps `""`, which every later use treats like None.
- `acknowledge_alarm` is modelled, but nothing in the engine calls it.
- The command-line interface, bootstrap, logging setup and the data simulators are outside the core and are left out.
