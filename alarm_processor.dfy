/** The alarm payload that is published and written to history when a rule triggers. */
module AlarmNotifications {
  import opened Options
  import opened AlarmRules
  import opened AlarmStates

  datatype ShuntDetails = ShuntDetails(
    shuntDeviceId: Option<string>,
    shuntField: Option<string>,
    shuntValue: real,
    shuntThreshold: Option<real>,
    shuntOperator: string)

  datatype AlarmData = AlarmData(
    ruleId: string,
    deviceId: string,
    alarmType: string,
    description: string,
    sensorField: string,
    currentValue: real,
    thresholdValue: real,
    comparisonOperator: string,
    durationMinutes: int,
    violationDuration: real,
    triggerTime: Option<real>,
    timestamp: real,
    severity: string,
    shunt: Option<ShuntDetails>)

  /**
   * `_create_alarm_data`. The shunt details are added for a conditional rule
   * that produced a shunt reading; they read the rule's shunt operator, so the
   * original fails unless one is set.
   */
  function CreateAlarmData(rule: AlarmRule, state: StateView, sensorValue: real,
                           shuntValue: Option<real>, now: real): (d: AlarmData)
    requires IsConditional(rule) && shuntValue.Some? ==> rule.shuntOperator.Some?
    ensures d.ruleId == rule.ruleId && d.deviceId == rule.deviceId
    ensures d.currentValue == sensorValue && d.triggerTime == state.triggerTime
    ensures d.violationDuration == DurationMinutes(state, now)
    ensures ParseAlarmType(d.alarmType) == Some(rule.alarmType)
    ensures ParseOperator(d.comparisonOperator) == Some(rule.comparisonOperator)
    ensures d.description == rule.description && d.sensorField == rule.sensorField
    ensures d.thresholdValue == rule.thresholdValue && d.durationMinutes == rule.durationMinutes
    ensures d.timestamp == now && d.severity == "HIGH"
    ensures d.shunt.Some? <==> IsConditional(rule) && shuntValue.Some?
    ensures d.shunt.Some? ==> d.shunt.value.shuntValue == shuntValue.value
                              && ParseOperator(d.shunt.value.shuntOperator) == rule.shuntOperator
    ensures d.shunt.Some? ==> d.shunt.value.shuntDeviceId == rule.shuntDeviceId
                              && d.shunt.value.shuntField == rule.shuntField
                              && d.shunt.value.shuntThreshold == rule.shuntValue
  {
    AlarmTypeEncodingInjective(rule.alarmType, rule.alarmType);
    OperatorEncodingInjective(rule.comparisonOperator, rule.comparisonOperator);
    var shunt :=
      if IsConditional(rule) && shuntValue.Some?
      then
        OperatorEncodingInjective(rule.shuntOperator.value, rule.shuntOperator.value);
        Some(ShuntDetails(rule.shuntDeviceId, rule.shuntField, shuntValue.value, rule.shuntValue,
                          OperatorValue(rule.shuntOperator.value)))
      else None;
    AlarmData(rule.ruleId, rule.deviceId, AlarmTypeValue(rule.alarmType), rule.description,
              rule.sensorField, sensorValue, rule.thresholdValue, OperatorValue(rule.comparisonOperator),
              rule.durationMinutes, DurationMinutes(state, now), state.triggerTime, now, "HIGH", shunt)
  }
}

/**
 * The evaluation engine: readings are cached per device and queued; each
 * queued reading evaluates the enabled rules of its device, advancing each
 * rule's stored state and publishing a notification when a rule triggers.
 */
module AlarmProcessing {
  import opened Options
  import opened AlarmRules
  import opened AlarmStates
  import opened AlarmNotifications
  import opened Storage

  /** Capacity of the processing queue. */
  const MaxQueueSize: nat := 500
  /** Two values within this distance compare as equal. */
  const EqualityTolerance: real := 0.000001
  /** The field the cache adds to every reading it stores. */
  const LastUpdateField: string := "last_update"

  /** A sensor message: its numeric fields by name. */
  type Reading = map<string, real>

  function Abs(x: real): real
  {
    if x < 0.0 then -x else x
  }

  /** `_evaluate_condition`: `value` compared with `threshold` by `op`. */
  function EvaluateCondition(value: real, threshold: real, op: ComparisonOperator): (holds: bool)
    ensures op == GreaterThan ==> (holds <==> value > threshold)
    ensures op == LessThan ==> (holds <==> value < threshold)
    ensures op == GreaterEqual ==> (holds <==> value >= threshold)
    ensures op == LessEqual ==> (holds <==> value <= threshold)
    ensures op == Equal ==>
      (holds <==> threshold - EqualityTolerance < value < threshold + EqualityTolerance)
    ensures op == NotEqual ==>
      (holds <==> value <= threshold - EqualityTolerance || threshold + EqualityTolerance <= value)
  {
    match op
    case GreaterThan => value > threshold
    case LessThan => value < threshold
    case GreaterEqual => value >= threshold
    case LessEqual => value <= threshold
    case Equal => Abs(value - threshold) < EqualityTolerance
    case NotEqual => Abs(value - threshold) >= EqualityTolerance
  }

  /** `!=` holds exactly when `==` does not, and `==` is symmetric. */
  lemma NotEqualNegatesEqual(value: real, threshold: real)
    ensures EvaluateCondition(value, threshold, NotEqual) == !EvaluateCondition(value, threshold, Equal)
    ensures EvaluateCondition(value, threshold, Equal) == EvaluateCondition(threshold, value, Equal)
  {
  }

  /** The outcome of the shunt check and the shunt reading it used, if any. */
  datatype ShuntOutcome = ShuntOutcome(satisfied: bool, value: Option<real>)

  /**
   * `_evaluate_shunt_condition`: compares the shunt field of the shunt
   * device's last cached reading. A missing operator or threshold makes the
   * comparison false (the original's comparison fails and is caught).
   */
  function EvaluateShuntCondition(rule: AlarmRule, cache: map<string, Reading>): (r: ShuntOutcome)
    ensures rule.shuntDeviceId.None? || rule.shuntDeviceId.value !in cache ==> r == ShuntOutcome(false, None)
    ensures rule.shuntDeviceId.Some? && rule.shuntDeviceId.value in cache &&
            (rule.shuntField.None? || rule.shuntField.value !in cache[rule.shuntDeviceId.value])
            ==> r == ShuntOutcome(false, None)
    ensures r.value.Some? ==>
      && rule.shuntDeviceId.Some? && rule.shuntDeviceId.value in cache
      && rule.shuntField.Some? && rule.shuntField.value in cache[rule.shuntDeviceId.value]
      && r.value.value == cache[rule.shuntDeviceId.value][rule.shuntField.value]
    ensures rule.shuntDeviceId.Some? && rule.shuntDeviceId.value in cache &&
            rule.shuntField.Some? && rule.shuntField.value in cache[rule.shuntDeviceId.value]
            ==> r.value == Some(cache[rule.shuntDeviceId.value][rule.shuntField.value])
    ensures r.satisfied <==>
      && r.value.Some? && rule.shuntOperator.Some? && rule.shuntValue.Some?
      && EvaluateCondition(r.value.value, rule.shuntValue.value, rule.shuntOperator.value)
  {
    if rule.shuntDeviceId.None? || rule.shuntDeviceId.value !in cache then ShuntOutcome(false, None)
    else
      var shuntData := cache[rule.shuntDeviceId.value];
      if rule.shuntField.None? || rule.shuntField.value !in shuntData then ShuntOutcome(false, None)
      else
        var shuntValue := shuntData[rule.shuntField.value];
        var met := rule.shuntOperator.Some? && rule.shuntValue.Some? &&
                   EvaluateCondition(shuntValue, rule.shuntValue.value, rule.shuntOperator.value);
        ShuntOutcome(met, Some(shuntValue))
  }

  /** The effective condition of a rule for a primary reading `value`. */
  function Violated(rule: AlarmRule, value: real, cache: map<string, Reading>): (b: bool)
    ensures !IsConditional(rule) ==>
      (b <==> EvaluateCondition(value, rule.thresholdValue, rule.comparisonOperator))
    ensures IsConditional(rule) ==>
      (b <==> EvaluateCondition(value, rule.thresholdValue, rule.comparisonOperator)
              && EvaluateShuntCondition(rule, cache).satisfied)
    ensures IsConditional(rule) && (rule.shuntDeviceId.None? || rule.shuntDeviceId.value !in cache) ==> !b
  {
    var primary := EvaluateCondition(value, rule.thresholdValue, rule.comparisonOperator);
    var shunt := if IsConditional(rule) then EvaluateShuntCondition(rule, cache).satisfied else true;
    primary && shunt
  }

  /** The shunt reading an evaluation records: none for a simple rule. */
  function ShuntValueFor(rule: AlarmRule, cache: map<string, Reading>): Option<real>
  {
    if IsConditional(rule) then EvaluateShuntCondition(rule, cache).value else None
  }

  /** A violation already in progress records the latest reading and nothing else. */
  function ContinueViolation(v: StateView, now: real, value: real, shuntValue: Option<real>): (r: StateView)
    ensures r.lastViolation == Some(now) && r.lastValue == Some(value)
    ensures shuntValue.Some? ==> r.lastShuntValue == shuntValue
    ensures shuntValue.None? ==> r.lastShuntValue == v.lastShuntValue
    ensures r.status == v.status && r.violationStart == v.violationStart && r.violationCount == v.violationCount
    ensures r.triggerTime == v.triggerTime && r.acknowledgeTime == v.acknowledgeTime
    ensures r.ruleId == v.ruleId && r.deviceId == v.deviceId
  {
    v.(lastViolation := Some(now), lastValue := Some(value),
       lastShuntValue := if shuntValue.Some? then shuntValue else v.lastShuntValue)
  }

  datatype StepResult = StepResult(state: StateView, triggered: bool)

  /**
   * One evaluation of a rule whose sensor field is present: the new state and
   * whether the rule triggered (published and recorded in history).
   */
  function EvaluateStep(v: StateView, violated: bool, value: real, shuntValue: Option<real>,
                        durationMinutes: int, now: real): (r: StepResult)
    ensures r.state.ruleId == v.ruleId && r.state.deviceId == v.deviceId
    ensures r.triggered ==> violated && v.status != Triggered
    ensures r.triggered ==> r.state.status == Triggered && r.state.triggerTime == Some(now)
    ensures violated && v.status == Triggered ==> !r.triggered && r.state.status == Triggered
    ensures violated && v.status == Inactive ==>
      r.state.violationStart == Some(now) && (r.triggered <==> durationMinutes <= 0)
    ensures violated && v.status == Inactive && durationMinutes >= 1 ==> r.state.status == Active
    ensures violated && v.status != Inactive ==> r.state.violationStart == v.violationStart
    ensures violated && v.status != Inactive && v.status != Triggered && v.violationStart.Some? ==>
      (r.triggered <==> now - v.violationStart.value >= 60.0 * durationMinutes as real)
    ensures violated && v.status != Inactive && v.status != Triggered && v.violationStart.None? ==>
      (r.triggered <==> durationMinutes <= 0)
    ensures violated && v.status == Active && !r.triggered ==> r.state.status == Active
    ensures violated ==> r.state.lastViolation == Some(now) && r.state.lastValue == Some(value)
    ensures violated && shuntValue.Some? ==> r.state.lastShuntValue == shuntValue
    ensures violated && shuntValue.None? ==> r.state.lastShuntValue == v.lastShuntValue
    ensures violated && !ViolationActive(v) ==> r.state.violationCount == v.violationCount + 1
    ensures violated && ViolationActive(v) ==> r.state.violationCount == v.violationCount
    ensures violated ==> r.state.acknowledgeTime == v.acknowledgeTime
    ensures violated && v.status == Acknowledged && !r.triggered ==> r.state.status == Acknowledged
    ensures !r.triggered ==> r.state.triggerTime == v.triggerTime
    ensures !violated ==> !r.triggered
    ensures !violated && ViolationActive(v) ==> r.state == Cleared(v)
    ensures !violated && !ViolationActive(v) ==> r.state == v
  {
    if violated then
      var current := if !ViolationActive(v) then Started(v, now, value, shuntValue)
                     else ContinueViolation(v, now, value, shuntValue);
      if DurationMinutes(current, now) >= durationMinutes as real && current.status != Triggered
      then StepResult(TriggeredAt(current, now), true)
      else StepResult(current, false)
    else if ViolationActive(v) then StepResult(Cleared(v), false)
    else StepResult(v, false)
  }

  /** An evaluation input: the effective condition, the readings, and the clock. */
  datatype Sample = Sample(violated: bool, value: real, shuntValue: Option<real>, time: real)

  function StepOn(v: StateView, s: Sample, durationMinutes: int): StepResult
  {
    EvaluateStep(v, s.violated, s.value, s.shuntValue, durationMinutes, s.time)
  }

  /** Successive evaluations of one rule: the final state and the number of triggers. */
  function Run(v: StateView, samples: seq<Sample>, durationMinutes: int): (StateView, nat)
    decreases |samples|
  {
    if samples == [] then (v, 0)
    else
      var step := StepOn(v, samples[0], durationMinutes);
      var rest := Run(step.state, samples[1..], durationMinutes);
      (rest.0, rest.1 + if step.triggered then 1 else 0)
  }

  predicate AllViolated(samples: seq<Sample>)
  {
    forall i :: 0 <= i < |samples| ==> samples[i].violated
  }

  /** Some sample lies at least `durationMinutes` minutes after `start`. */
  predicate DurationReached(samples: seq<Sample>, start: real, durationMinutes: int)
  {
    exists i :: 0 <= i < |samples| && samples[i].time - start >= 60.0 * durationMinutes as real
  }

  /** Once TRIGGERED, a condition that stays true triggers no more. */
  lemma {:induction false} TriggeredStaysQuiet(v: StateView, samples: seq<Sample>, durationMinutes: int)
    requires v.status == Triggered && AllViolated(samples)
    ensures Run(v, samples, durationMinutes).1 == 0
    ensures Run(v, samples, durationMinutes).0.status == Triggered
    decreases |samples|
  {
    if samples != [] {
      var step := StepOn(v, samples[0], durationMinutes);
      TriggeredStaysQuiet(step.state, samples[1..], durationMinutes);
    }
  }

  /** However the episode starts, a condition that stays true triggers at most once. */
  lemma {:induction false} AtMostOneTriggerPerEpisode(v: StateView, samples: seq<Sample>, durationMinutes: int)
    requires AllViolated(samples)
    ensures Run(v, samples, durationMinutes).1 <= 1
    decreases |samples|
  {
    if samples != [] {
      var step := StepOn(v, samples[0], durationMinutes);
      if step.triggered {
        TriggeredStaysQuiet(step.state, samples[1..], durationMinutes);
      } else {
        AtMostOneTriggerPerEpisode(step.state, samples[1..], durationMinutes);
      }
    }
  }

  /** An ACTIVE violation that stays true triggers once exactly if its duration is reached. */
  lemma {:induction false} ActiveTriggersWhenDurationReached(v: StateView, samples: seq<Sample>, durationMinutes: int)
    requires v.status == Active && v.violationStart.Some? && AllViolated(samples)
    ensures Run(v, samples, durationMinutes).1 ==
      if DurationReached(samples, v.violationStart.value, durationMinutes) then 1 else 0
    decreases |samples|
  {
    var start := v.violationStart.value;
    if samples != [] {
      var step := StepOn(v, samples[0], durationMinutes);
      if step.triggered {
        TriggeredStaysQuiet(step.state, samples[1..], durationMinutes);
        assert samples[0].time - start >= 60.0 * durationMinutes as real;
      } else {
        ActiveTriggersWhenDurationReached(step.state, samples[1..], durationMinutes);
        assert samples[0].time - start < 60.0 * durationMinutes as real;
        if DurationReached(samples, start, durationMinutes) {
          var i :| 0 <= i < |samples| && samples[i].time - start >= 60.0 * durationMinutes as real;
          assert samples[1..][i - 1] == samples[i];
        }
        if DurationReached(samples[1..], start, durationMinutes) {
          var i :| 0 <= i < |samples[1..]| && samples[1..][i].time - start >= 60.0 * durationMinutes as real;
          assert samples[i + 1] == samples[1..][i];
        }
      }
    }
  }

  /**
   * An episode that starts from INACTIVE and stays true triggers exactly once
   * if some evaluation comes `durationMinutes` or more after the first, and
   * never otherwise.
   */
  lemma {:induction false} EpisodeTriggersOnceIffDurationReached(v: StateView, samples: seq<Sample>, durationMinutes: int)
    requires v.status == Inactive && |samples| > 0 && AllViolated(samples)
    ensures Run(v, samples, durationMinutes).1 ==
      if DurationReached(samples, samples[0].time, durationMinutes) then 1 else 0
  {
    var start := samples[0].time;
    var step := StepOn(v, samples[0], durationMinutes);
    if step.triggered {
      TriggeredStaysQuiet(step.state, samples[1..], durationMinutes);
      assert samples[0].time - start >= 60.0 * durationMinutes as real;
    } else {
      ActiveTriggersWhenDurationReached(step.state, samples[1..], durationMinutes);
      if DurationReached(samples, start, durationMinutes) {
        var i :| 0 <= i < |samples| && samples[i].time - start >= 60.0 * durationMinutes as real;
        assert samples[1..][i - 1] == samples[i];
      }
      if DurationReached(samples[1..], start, durationMinutes) {
        var i :| 0 <= i < |samples[1..]| && samples[1..][i].time - start >= 60.0 * durationMinutes as real;
        assert samples[i + 1] == samples[1..][i];
      }
    }
  }

  /**
   * The sample two-minute rule (temperature above 30) on one device: violating
   * readings at 0, 60 and 90 seconds trigger nothing; one more at 120 seconds
   * triggers exactly once.
   */
  lemma TwoMinuteRuleScenario(v: StateView)
    requires v.status == Inactive
    ensures EvaluateCondition(35.0, 30.0, GreaterThan)
    ensures Run(v, [Sample(true, 35.0, None, 0.0), Sample(true, 35.0, None, 60.0),
                    Sample(true, 35.0, None, 90.0)], 2).1 == 0
    ensures Run(v, [Sample(true, 35.0, None, 0.0), Sample(true, 35.0, None, 60.0),
                    Sample(true, 35.0, None, 90.0), Sample(true, 35.0, None, 120.0)], 2).1 == 1
  {
    var early := [Sample(true, 35.0, None, 0.0), Sample(true, 35.0, None, 60.0), Sample(true, 35.0, None, 90.0)];
    var full := early + [Sample(true, 35.0, None, 120.0)];
    assert full == [Sample(true, 35.0, None, 0.0), Sample(true, 35.0, None, 60.0),
                    Sample(true, 35.0, None, 90.0), Sample(true, 35.0, None, 120.0)];
    EpisodeTriggersOnceIffDurationReached(v, early, 2);
    EpisodeTriggersOnceIffDurationReached(v, full, 2);
    assert full[3].time - full[0].time >= 60.0 * 2 as real;
  }

  /** After a false reading, the next true reading starts a fresh timer (unless ACKNOWLEDGED). */
  lemma ClearRestartsTimer(v: StateView, clear: Sample, next: Sample, durationMinutes: int)
    requires !clear.violated && next.violated && v.status != Acknowledged
    ensures Run(v, [clear, next], durationMinutes).0.violationStart == Some(next.time)
  {
    var first := StepOn(v, clear, durationMinutes);
    assert first.state.status == Inactive;
    var second := StepOn(first.state, next, durationMinutes);
    assert second.state.violationStart == Some(next.time);
    assert [clear, next][1..] == [next];
    assert [next][1..] == [];
    assert Run(second.state, [], durationMinutes).0 == second.state;
    assert Run(first.state, [next], durationMinutes).0 == second.state;
  }

  /** With distinct rule ids, no later state shares the first one's id. */
  lemma HeadIdUnique(states: seq<StateView>)
    requires states != []
    ensures (forall i, j :: 0 <= i < j < |states| ==> states[i].ruleId != states[j].ruleId) ==>
      forall s :: s in states[1..] ==> s.ruleId != states[0].ruleId
  {
    forall s | s in states[1..] && (forall i, j :: 0 <= i < j < |states| ==> states[i].ruleId != states[j].ruleId)
      ensures s.ruleId != states[0].ruleId
    {
      var m :| 0 <= m < |states[1..]| && states[1..][m] == s;
      assert states[m + 1] == s;
    }
  }

  /** The states whose violation is in progress, in their order. */
  function ActiveOnly(states: seq<StateView>): (active: seq<StateView>)
    ensures forall s :: s in active <==> s in states && ViolationActive(s)
    ensures |active| <= |states|
    ensures (forall i, j :: 0 <= i < j < |states| ==> states[i].ruleId != states[j].ruleId) ==>
      (forall i, j :: 0 <= i < j < |active| ==> active[i].ruleId != active[j].ruleId)
  {
    if states == [] then []
    else if ViolationActive(states[0]) then
      HeadIdUnique(states);
      [states[0]] + ActiveOnly(states[1..])
    else ActiveOnly(states[1..])
  }

  /** The state an evaluation of `rule` starts from in a states table: the stored one, else a fresh INACTIVE one. */
  function PriorIn(states: map<string, StateRow>, rule: AlarmRule): StateView
  {
    if rule.ruleId in states && FromRecord(states[rule.ruleId].stateData).Some?
    then FromRecord(states[rule.ruleId].stateData).value
    else InitialView(rule.ruleId, rule.deviceId, Inactive)
  }

  /** One evaluation of `rule` from the state `prior` for a present sensor reading `value`. */
  function StepFor(rule: AlarmRule, prior: StateView, cache: map<string, Reading>, value: real, now: real): StepResult
  {
    EvaluateStep(prior, Violated(rule, value, cache), value, ShuntValueFor(rule, cache), rule.durationMinutes, now)
  }

  /** The states-table row one evaluation of `rule` writes for a present sensor reading `value`. */
  function EvaluatedRow(rule: AlarmRule, prior: StateView, cache: map<string, Reading>, value: real, now: real): StateRow
  {
    var step := StepFor(rule, prior, cache, value, now);
    StateRow(step.state.deviceId, ToRecord(step.state), now)
  }

  /** Evaluating `rule` against `data`, from its state in `before`, triggers it. */
  predicate Fires(rule: AlarmRule, before: map<string, StateRow>, cache: map<string, Reading>, data: Reading, now: real)
  {
    rule.sensorField in data && StepFor(rule, PriorIn(before, rule), cache, data[rule.sensorField], now).triggered
  }

  /** The payload a triggering rule publishes and records in history. */
  function AlarmOf(rule: AlarmRule, before: map<string, StateRow>, cache: map<string, Reading>, data: Reading,
                   now: real): (d: AlarmData)
    requires Fires(rule, before, cache, data, now)
    ensures d.ruleId == rule.ruleId && d.deviceId == rule.deviceId
  {
    var value := data[rule.sensorField];
    CreateAlarmData(rule, StepFor(rule, PriorIn(before, rule), cache, value, now).state, value,
                    ShuntValueFor(rule, cache), now)
  }

  /** The payloads one pass over `rules` publishes, in rule order: one for each rule that fires. */
  function RoundAlarms(rules: seq<AlarmRule>, before: map<string, StateRow>, cache: map<string, Reading>,
                       data: Reading, now: real): (alarms: seq<AlarmData>)
    ensures |alarms| <= |rules|
    decreases |rules|
  {
    if rules == [] then []
    else
      var last := rules[|rules| - 1];
      var init := RoundAlarms(rules[..|rules| - 1], before, cache, data, now);
      if Fires(last, before, cache, data, now) then init + [AlarmOf(last, before, cache, data, now)] else init
  }

  /** Each payload of a pass comes from a rule of the pass that fires. */
  lemma {:induction false} RoundAlarmsSound(rules: seq<AlarmRule>, before: map<string, StateRow>,
                                            cache: map<string, Reading>, data: Reading, now: real)
    ensures forall a :: a in RoundAlarms(rules, before, cache, data, now) ==>
      exists j :: 0 <= j < |rules| && Fires(rules[j], before, cache, data, now)
                  && a == AlarmOf(rules[j], before, cache, data, now)
    decreases |rules|
  {
    if rules != [] {
      var n := |rules| - 1;
      var init := rules[..n];
      RoundAlarmsSound(init, before, cache, data, now);
      var prev := RoundAlarms(init, before, cache, data, now);
      forall a | a in RoundAlarms(rules, before, cache, data, now)
        ensures exists j :: 0 <= j < |rules| && Fires(rules[j], before, cache, data, now)
                            && a == AlarmOf(rules[j], before, cache, data, now)
      {
        if a in prev {
          var j :| 0 <= j < |init| && Fires(init[j], before, cache, data, now)
                   && a == AlarmOf(init[j], before, cache, data, now);
          assert rules[j] == init[j];
        } else {
          assert Fires(rules[n], before, cache, data, now) && a == AlarmOf(rules[n], before, cache, data, now);
        }
      }
    }
  }

  /** Every rule of a pass that fires contributes its payload. */
  lemma {:induction false} RoundAlarmsComplete(rules: seq<AlarmRule>, before: map<string, StateRow>,
                                               cache: map<string, Reading>, data: Reading, now: real)
    ensures forall j :: 0 <= j < |rules| && Fires(rules[j], before, cache, data, now) ==>
      AlarmOf(rules[j], before, cache, data, now) in RoundAlarms(rules, before, cache, data, now)
    decreases |rules|
  {
    if rules != [] {
      var n := |rules| - 1;
      var init := rules[..n];
      RoundAlarmsComplete(init, before, cache, data, now);
      forall j | 0 <= j < n && Fires(rules[j], before, cache, data, now)
        ensures AlarmOf(rules[j], before, cache, data, now) in RoundAlarms(rules, before, cache, data, now)
      {
        assert init[j] == rules[j];
      }
    }
  }

  /** With distinct rule ids, no rule publishes twice in a pass. */
  lemma {:induction false} RoundAlarmsDistinct(rules: seq<AlarmRule>, before: map<string, StateRow>,
                                               cache: map<string, Reading>, data: Reading, now: real)
    requires forall i, j :: 0 <= i < j < |rules| ==> rules[i].ruleId != rules[j].ruleId
    ensures forall i, j :: 0 <= i < j < |RoundAlarms(rules, before, cache, data, now)| ==>
      RoundAlarms(rules, before, cache, data, now)[i].ruleId != RoundAlarms(rules, before, cache, data, now)[j].ruleId
    decreases |rules|
  {
    if rules != [] {
      var n := |rules| - 1;
      var init := rules[..n];
      RoundAlarmsDistinct(init, before, cache, data, now);
      RoundAlarmsSound(init, before, cache, data, now);
      var prev := RoundAlarms(init, before, cache, data, now);
      var alarms := RoundAlarms(rules, before, cache, data, now);
      assert forall i, j :: 0 <= i < j < |prev| ==> prev[i].ruleId != prev[j].ruleId;
      assert Fires(rules[n], before, cache, data, now) ==> alarms == prev + [AlarmOf(rules[n], before, cache, data, now)];
      assert !Fires(rules[n], before, cache, data, now) ==> alarms == prev;
      forall i, j | 0 <= i < j < |alarms| ensures alarms[i].ruleId != alarms[j].ruleId {
        assert alarms[i] == prev[i];
        if j >= |prev| {
          assert prev[i] in prev;
          var m :| 0 <= m < |init| && Fires(init[m], before, cache, data, now)
                   && prev[i] == AlarmOf(init[m], before, cache, data, now);
          assert init[m] == rules[m];
          assert alarms[i].ruleId == rules[m].ruleId;
          assert alarms[j] == AlarmOf(rules[n], before, cache, data, now);
        } else {
          assert alarms[j] == prev[j];
        }
      }
    }
  }

  /** The history rows that record `alarms`, with ids counting up from `firstId`. */
  function HistoryRows(firstId: nat, alarms: seq<AlarmData>, now: real): (rows: seq<HistoryRow>)
  {
    seq(|alarms|, i requires 0 <= i < |alarms| =>
      HistoryRow(firstId + i, alarms[i].ruleId, alarms[i].deviceId, alarms[i], now))
  }

  /**
   * History extended by the rows of a stretch of published alarms holds
   * one row per alarm, in publishing order, carrying that alarm's payload.
   */
  lemma HistoryFollowsPublished(oldH: seq<HistoryRow>, newH: seq<HistoryRow>, oldNext: nat,
                                oldP: seq<AlarmData>, newP: seq<AlarmData>, now: real)
    requires |oldP| <= |newP|
    requires newH == oldH + HistoryRows(oldNext, newP[|oldP|..], now)
    ensures |oldH| <= |newH| && newH[..|oldH|] == oldH
    ensures |newH| - |oldH| == |newP| - |oldP|
    ensures forall k :: |oldP| <= k < |newP| ==>
      && newH[|oldH| + (k - |oldP|)].alarmData == newP[k]
      && newH[|oldH| + (k - |oldP|)].id == oldNext + (k - |oldP|)
  {
  }

  /** Recording two runs of alarms in turn numbers the second run on from the first. */
  /** One more rule in the round adds its alarm, if it fires, after those of the rules before it. */
  lemma RoundAlarmsStep(rules: seq<AlarmRule>, i: nat, before: map<string, StateRow>, cache: map<string, Reading>,
                        data: Reading, now: real)
    requires i < |rules|
    ensures RoundAlarms(rules[..i + 1], before, cache, data, now) ==
      RoundAlarms(rules[..i], before, cache, data, now) +
      (if Fires(rules[i], before, cache, data, now) then [AlarmOf(rules[i], before, cache, data, now)] else [])
  {
    assert rules[..i + 1][..i] == rules[..i];
  }

  /** Whether a rule fires, and what it publishes, depend on the states table only through the rule's own row. */
  lemma FiresOnlyReadsOwnRow(rule: AlarmRule, s1: map<string, StateRow>, s2: map<string, StateRow>,
                             cache: map<string, Reading>, data: Reading, now: real)
    requires PriorIn(s1, rule) == PriorIn(s2, rule)
    ensures Fires(rule, s1, cache, data, now) == Fires(rule, s2, cache, data, now)
    ensures Fires(rule, s1, cache, data, now) ==> AlarmOf(rule, s1, cache, data, now) == AlarmOf(rule, s2, cache, data, now)
  {
  }

  /** The alarms published after evaluating one more rule of the round against the table as it now stands. */
  lemma PublishedStep(oldP: seq<AlarmData>, midP: seq<AlarmData>, newP: seq<AlarmData>, rules: seq<AlarmRule>, i: nat,
                      before: map<string, StateRow>, mid: map<string, StateRow>, cache: map<string, Reading>,
                      data: Reading, now: real)
    requires i < |rules| && PriorIn(mid, rules[i]) == PriorIn(before, rules[i])
    requires midP == oldP + RoundAlarms(rules[..i], before, cache, data, now)
    requires newP == midP + (if Fires(rules[i], mid, cache, data, now) then [AlarmOf(rules[i], mid, cache, data, now)] else [])
    ensures newP == oldP + RoundAlarms(rules[..i + 1], before, cache, data, now)
  {
    RoundAlarmsStep(rules, i, before, cache, data, now);
    FiresOnlyReadsOwnRow(rules[i], mid, before, cache, data, now);
  }

  /**
   * History written in two stretches, the second numbered on from the
   * first, is the history of all alarms published across both.
   */
  lemma HistoryExtends(oldH: seq<HistoryRow>, midH: seq<HistoryRow>, newH: seq<HistoryRow>, oldNext: nat, midNext: nat,
                       oldP: seq<AlarmData>, midP: seq<AlarmData>, newP: seq<AlarmData>, now: real)
    requires |oldP| <= |midP| <= |newP| && newP[..|midP|] == midP
    requires midH == oldH + HistoryRows(oldNext, midP[|oldP|..], now)
    requires midNext == oldNext + (|midH| - |oldH|)
    requires newH == midH + HistoryRows(midNext, newP[|midP|..], now)
    ensures newH == oldH + HistoryRows(oldNext, newP[|oldP|..], now)
  {
    assert newP[|oldP|..] == midP[|oldP|..] + newP[|midP|..];
    HistoryRowsConcat(oldNext, midP[|oldP|..], newP[|midP|..], now);
  }

  lemma HistoryRowsConcat(firstId: nat, alarms: seq<AlarmData>, more: seq<AlarmData>, now: real)
    ensures HistoryRows(firstId, alarms + more, now) ==
            HistoryRows(firstId, alarms, now) + HistoryRows(firstId + |alarms|, more, now)
  {
  }

  /**
   * The states table after evaluating `rules` in turn against one reading:
   * each rule whose sensor field is present has its row rewritten, starting
   * from its row in `before`.
   */
  function RoundStates(rules: seq<AlarmRule>, before: map<string, StateRow>, cache: map<string, Reading>,
                       data: Reading, now: real): map<string, StateRow>
    decreases |rules|
  {
    if rules == [] then before
    else
      var last := rules[|rules| - 1];
      var init := RoundStates(rules[..|rules| - 1], before, cache, data, now);
      if last.sensorField in data
      then init[last.ruleId := EvaluatedRow(last, PriorIn(before, last), cache, data[last.sensorField], now)]
      else init
  }

  /** A row that no evaluated rule owns is left as it was. */
  lemma {:induction false} RoundStatesUntouched(rules: seq<AlarmRule>, before: map<string, StateRow>,
                                                cache: map<string, Reading>, data: Reading, now: real, id: string)
    requires forall j :: 0 <= j < |rules| && rules[j].sensorField in data ==> rules[j].ruleId != id
    ensures id in RoundStates(rules, before, cache, data, now) <==> id in before
    ensures id in before ==> RoundStates(rules, before, cache, data, now)[id] == before[id]
    decreases |rules|
  {
    if rules != [] {
      var init := rules[..|rules| - 1];
      forall j | 0 <= j < |init| && init[j].sensorField in data ensures init[j].ruleId != id {
        assert init[j] == rules[j];
      }
      RoundStatesUntouched(init, before, cache, data, now, id);
    }
  }

  /** With distinct rule ids, each rule whose field is present ends with the row its own evaluation wrote. */
  lemma {:induction false} RoundStatesEvaluated(rules: seq<AlarmRule>, before: map<string, StateRow>,
                                                cache: map<string, Reading>, data: Reading, now: real)
    requires forall a, b :: 0 <= a < b < |rules| ==> rules[a].ruleId != rules[b].ruleId
    ensures forall j :: 0 <= j < |rules| && rules[j].sensorField in data ==>
      && rules[j].ruleId in RoundStates(rules, before, cache, data, now)
      && RoundStates(rules, before, cache, data, now)[rules[j].ruleId] ==
         EvaluatedRow(rules[j], PriorIn(before, rules[j]), cache, data[rules[j].sensorField], now)
    decreases |rules|
  {
    if rules != [] {
      var n := |rules| - 1;
      var init := rules[..n];
      RoundStatesEvaluated(init, before, cache, data, now);
      forall j | 0 <= j < |rules| && rules[j].sensorField in data
        ensures rules[j].ruleId in RoundStates(rules, before, cache, data, now)
        ensures RoundStates(rules, before, cache, data, now)[rules[j].ruleId] ==
                EvaluatedRow(rules[j], PriorIn(before, rules[j]), cache, data[rules[j].sensorField], now)
      {
        if j < n {
          assert init[j] == rules[j];
          assert rules[j].ruleId != rules[n].ruleId;
        }
      }
    }
  }

  /** Evaluating one more rule against the table as it now stands. */
  lemma StatesStep(rules: seq<AlarmRule>, i: nat, before: map<string, StateRow>, mid: map<string, StateRow>,
                   after: map<string, StateRow>, cache: map<string, Reading>, data: Reading, now: real)
    requires i < |rules| && PriorIn(mid, rules[i]) == PriorIn(before, rules[i])
    requires mid == RoundStates(rules[..i], before, cache, data, now)
    requires rules[i].sensorField !in data ==> after == mid
    requires rules[i].sensorField in data ==>
      after == mid[rules[i].ruleId := EvaluatedRow(rules[i], PriorIn(mid, rules[i]), cache, data[rules[i].sensorField], now)]
    ensures after == RoundStates(rules[..i + 1], before, cache, data, now)
  {
    assert rules[..i + 1][..i] == rules[..i];
  }

  /**
   * The states table `after` is what evaluating every enabled rule of
   * `deviceId` against `data` makes of `before`: the row of each such rule
   * whose sensor field is present is the evaluated one; every other row is
   * as it was.
   */
  ghost predicate AlarmsProcessed(rules: map<string, RuleRow>, before: map<string, StateRow>,
                                  after: map<string, StateRow>, cache: map<string, Reading>,
                                  deviceId: string, data: Reading, now: real)
  {
    forall id ::
      if id in rules && RowSelected(rules[id], Some(deviceId)) && RuleFromDict(rules[id].ruleData).Some?
         && RuleFromDict(rules[id].ruleData).value.sensorField in data
      then
        var rule := RuleFromDict(rules[id].ruleData).value;
        id in after && after[id] == EvaluatedRow(rule, PriorIn(before, rule), cache, data[rule.sensorField], now)
      else
        (id in after <==> id in before) && (id in after ==> after[id] == before[id])
  }

  /**
   * `alarms` are what evaluating every enabled rule of `deviceId` against
   * `data` publishes: one payload for each such rule that fires, and nothing
   * else, in some order.
   */
  ghost predicate AlarmsPublished(rules: map<string, RuleRow>, before: map<string, StateRow>,
                                  cache: map<string, Reading>, deviceId: string, data: Reading, now: real,
                                  alarms: seq<AlarmData>)
  {
    && (forall k :: 0 <= k < |alarms| ==>
          var id := alarms[k].ruleId;
          && id in rules && RowSelected(rules[id], Some(deviceId)) && RuleFromDict(rules[id].ruleData).Some?
          && Fires(RuleFromDict(rules[id].ruleData).value, before, cache, data, now)
          && alarms[k] == AlarmOf(RuleFromDict(rules[id].ruleData).value, before, cache, data, now))
    && (forall id ::
          (&& id in rules && RowSelected(rules[id], Some(deviceId)) && RuleFromDict(rules[id].ruleData).Some?
           && Fires(RuleFromDict(rules[id].ruleData).value, before, cache, data, now))
          ==> exists k :: 0 <= k < |alarms| && alarms[k].ruleId == id)
    && (forall i, j :: 0 <= i < j < |alarms| ==> alarms[i].ruleId != alarms[j].ruleId)
  }

  /**
   * The alarms of one round over the device's rules are exactly the
   * `AlarmsPublished` of that reading, and every payload names the device.
   */
  lemma AllAlarmsPublished(table: map<string, RuleRow>, before: map<string, StateRow>,
                           cache: map<string, Reading>, deviceId: string, data: Reading, now: real,
                           rules: seq<AlarmRule>)
    requires forall id :: id in table && RowSelected(table[id], Some(deviceId)) ==>
      exists j :: 0 <= j < |rules| && rules[j].ruleId == id
    requires forall j :: 0 <= j < |rules| ==>
      && rules[j].ruleId in table && RowSelected(table[rules[j].ruleId], Some(deviceId))
      && RuleFromDict(table[rules[j].ruleId].ruleData) == Some(rules[j])
    requires forall a, b :: 0 <= a < b < |rules| ==> rules[a].ruleId != rules[b].ruleId
    requires deviceId != "" ==> forall j :: 0 <= j < |rules| ==> rules[j].deviceId == deviceId
    ensures AlarmsPublished(table, before, cache, deviceId, data, now, RoundAlarms(rules, before, cache, data, now))
    ensures deviceId != "" ==> forall k :: 0 <= k < |RoundAlarms(rules, before, cache, data, now)| ==>
      RoundAlarms(rules, before, cache, data, now)[k].deviceId == deviceId
  {
    var alarms := RoundAlarms(rules, before, cache, data, now);
    RoundAlarmsSound(rules, before, cache, data, now);
    RoundAlarmsComplete(rules, before, cache, data, now);
    RoundAlarmsDistinct(rules, before, cache, data, now);
    forall k | 0 <= k < |alarms|
      ensures var id := alarms[k].ruleId;
        && id in table && RowSelected(table[id], Some(deviceId)) && RuleFromDict(table[id].ruleData).Some?
        && Fires(RuleFromDict(table[id].ruleData).value, before, cache, data, now)
        && alarms[k] == AlarmOf(RuleFromDict(table[id].ruleData).value, before, cache, data, now)
      ensures deviceId != "" ==> alarms[k].deviceId == deviceId
    {
      assert alarms[k] in alarms;
      var j :| 0 <= j < |rules| && Fires(rules[j], before, cache, data, now)
               && alarms[k] == AlarmOf(rules[j], before, cache, data, now);
    }
    forall id | && id in table && RowSelected(table[id], Some(deviceId)) && RuleFromDict(table[id].ruleData).Some?
                && Fires(RuleFromDict(table[id].ruleData).value, before, cache, data, now)
      ensures exists k :: 0 <= k < |alarms| && alarms[k].ruleId == id
    {
      var j :| 0 <= j < |rules| && rules[j].ruleId == id;
      var k :| 0 <= k < |alarms| && alarms[k] == AlarmOf(rules[j], before, cache, data, now);
    }
  }
  /**
   * What processing one reading of `deviceId` leaves behind, from the
   * tables, published list and history before it to those after it: every
   * selected rule is evaluated, every trigger is published once, and each
   * published payload is recorded as one history row with the next id.
   */
  ghost predicate DeviceRoundRecorded(rules: map<string, RuleRow>, before: map<string, StateRow>,
                                      after: map<string, StateRow>, cache: map<string, Reading>,
                                      deviceId: string, data: Reading, now: real,
                                      oldP: seq<AlarmData>, newP: seq<AlarmData>,
                                      oldH: seq<HistoryRow>, newH: seq<HistoryRow>, oldNext: nat, newNext: nat)
  {
    && AlarmsProcessed(rules, before, after, cache, deviceId, data, now)
    && |oldP| <= |newP| && newP[..|oldP|] == oldP
    && AlarmsPublished(rules, before, cache, deviceId, data, now, newP[|oldP|..])
    && (deviceId != "" ==> forall k :: |oldP| <= k < |newP| ==> newP[k].deviceId == deviceId)
    && newH == oldH + HistoryRows(oldNext, newP[|oldP|..], now)
    && |newH| - |oldH| == |newP| - |oldP|
    && (forall k :: |oldP| <= k < |newP| ==> newH[|oldH| + (k - |oldP|)].alarmData == newP[k])
    && newNext == oldNext + (|newP| - |oldP|)
  }

  /** One round over the device's rules, as `RoundStates` and `RoundAlarms` compute it, is a `DeviceRoundRecorded`. */
  lemma DeviceRoundFromRules(table: map<string, RuleRow>, before: map<string, StateRow>,
                             cache: map<string, Reading>, deviceId: string, data: Reading, now: real,
                             rules: seq<AlarmRule>, oldP: seq<AlarmData>, oldH: seq<HistoryRow>, oldNext: nat)
    requires forall id :: id in table && RowSelected(table[id], Some(deviceId)) ==>
      exists j :: 0 <= j < |rules| && rules[j].ruleId == id
    requires forall j :: 0 <= j < |rules| ==>
      && rules[j].ruleId in table && RowSelected(table[rules[j].ruleId], Some(deviceId))
      && RuleFromDict(table[rules[j].ruleId].ruleData) == Some(rules[j])
    requires forall a, b :: 0 <= a < b < |rules| ==> rules[a].ruleId != rules[b].ruleId
    requires deviceId != "" ==> forall j :: 0 <= j < |rules| ==> rules[j].deviceId == deviceId
    ensures DeviceRoundRecorded(table, before, RoundStates(rules, before, cache, data, now), cache, deviceId, data, now,
                                oldP, oldP + RoundAlarms(rules, before, cache, data, now),
                                oldH, oldH + HistoryRows(oldNext, RoundAlarms(rules, before, cache, data, now), now),
                                oldNext, oldNext + |RoundAlarms(rules, before, cache, data, now)|)
  {
    var alarms := RoundAlarms(rules, before, cache, data, now);
    var newP := oldP + alarms;
    assert newP[..|oldP|] == oldP && newP[|oldP|..] == alarms;
    AllRulesEvaluated(table, before, cache, deviceId, data, now, rules);
    AllAlarmsPublished(table, before, cache, deviceId, data, now, rules);
    HistoryFollowsPublished(oldH, oldH + HistoryRows(oldNext, alarms, now), oldNext, oldP, newP, now);
  }


  /**
   * The loop of `_process_device_alarms` establishes `AlarmsProcessed` once
   * it has gone through every selected rule, each exactly once.
   */
  lemma AllRulesEvaluated(table: map<string, RuleRow>, before: map<string, StateRow>,
                          cache: map<string, Reading>, deviceId: string, data: Reading, now: real,
                          rules: seq<AlarmRule>)
    requires forall id :: id in table && RowSelected(table[id], Some(deviceId)) ==>
      exists j :: 0 <= j < |rules| && rules[j].ruleId == id
    requires forall j :: 0 <= j < |rules| ==>
      && rules[j].ruleId in table && RowSelected(table[rules[j].ruleId], Some(deviceId))
      && RuleFromDict(table[rules[j].ruleId].ruleData) == Some(rules[j])
    requires forall a, b :: 0 <= a < b < |rules| ==> rules[a].ruleId != rules[b].ruleId
    ensures AlarmsProcessed(table, before, RoundStates(rules, before, cache, data, now), cache, deviceId, data, now)
  {
    var after := RoundStates(rules, before, cache, data, now);
    RoundStatesEvaluated(rules, before, cache, data, now);
    forall id ensures
      if id in table && RowSelected(table[id], Some(deviceId)) && RuleFromDict(table[id].ruleData).Some?
         && RuleFromDict(table[id].ruleData).value.sensorField in data
      then
        var rule := RuleFromDict(table[id].ruleData).value;
        id in after && after[id] == EvaluatedRow(rule, PriorIn(before, rule), cache, data[rule.sensorField], now)
      else
        (id in after <==> id in before) && (id in after ==> after[id] == before[id])
    {
      if id in table && RowSelected(table[id], Some(deviceId)) && RuleFromDict(table[id].ruleData).Some?
         && RuleFromDict(table[id].ruleData).value.sensorField in data {
        var j :| 0 <= j < |rules| && rules[j].ruleId == id;
      } else {
        // No rule evaluated with its field present has this id, so the row was never rewritten.
        forall j | 0 <= j < |rules| && rules[j].sensorField in data ensures rules[j].ruleId != id {
        }
        RoundStatesUntouched(rules, before, cache, data, now, id);
      }
    }
  }


  class AlarmProcessor {
    const storage: StorageService
    var deviceData: map<string, Reading>
    var processingQueue: seq<(string, Reading)>
    var published: seq<AlarmData>

    ghost predicate Valid()
      reads this, storage
    {
      storage.Valid() && |processingQueue| <= MaxQueueSize
    }

    /** The state an evaluation of `rule` starts from: the stored one, else a fresh INACTIVE one. */
    ghost function PriorState(rule: AlarmRule): StateView
      reads this, storage
      requires storage.Valid()
    {
      PriorIn(storage.alarmStates, rule)
    }

    constructor (storage: StorageService)
      requires storage.Valid()
      ensures Valid() && this.storage == storage
      ensures deviceData == map[] && processingQueue == [] && published == []
    {
      this.storage := storage;
      deviceData := map[];
      processingQueue := [];
      published := [];
    }

    /**
     * `process_sensor_data`: replaces the device's cache entry with the
     * reading plus its update time, and queues the reading unless the queue
     * is full, in which case the reading is dropped.
     */
    method ProcessSensorData(deviceId: string, data: Reading, now: real)
      requires Valid()
      modifies this`deviceData, this`processingQueue
      ensures Valid()
      ensures deviceData == old(deviceData)[deviceId := data[LastUpdateField := now]]
      ensures |old(processingQueue)| < MaxQueueSize ==> processingQueue == old(processingQueue) + [(deviceId, data)]
      ensures |old(processingQueue)| >= MaxQueueSize ==> processingQueue == old(processingQueue)
    {
      deviceData := deviceData[deviceId := data[LastUpdateField := now]];
      if |processingQueue| < MaxQueueSize {
        processingQueue := processingQueue + [(deviceId, data)];
      }
    }

    /** `_evaluate_alarm_rule` with the clock passed in as `now`. */
    method EvaluateAlarmRule(rule: AlarmRule, data: Reading, now: real)
      requires Valid()
      modifies this`published, storage
      ensures Valid()
      ensures storage.alarmRules == old(storage.alarmRules)
      ensures forall id :: id != rule.ruleId ==>
        (id in storage.alarmStates <==> id in old(storage.alarmStates)) &&
        (id in storage.alarmStates ==> storage.alarmStates[id] == old(storage.alarmStates)[id])
      ensures |old(published)| <= |published| && published[..|old(published)|] == old(published)
      ensures forall k :: |old(published)| <= k < |published| ==>
        published[k].ruleId == rule.ruleId && published[k].deviceId == rule.deviceId
      ensures rule.sensorField !in data ==>
        && storage.alarmStates == old(storage.alarmStates)
        && storage.alarmHistory == old(storage.alarmHistory)
        && published == old(published)
      ensures rule.sensorField in data ==>
        storage.alarmStates ==
          old(storage.alarmStates)[rule.ruleId := EvaluatedRow(rule, PriorIn(old(storage.alarmStates), rule), deviceData,
                                                               data[rule.sensorField], now)]
      ensures published == old(published) +
        (if Fires(rule, old(storage.alarmStates), deviceData, data, now)
         then [AlarmOf(rule, old(storage.alarmStates), deviceData, data, now)] else [])
      ensures storage.alarmHistory ==
        old(storage.alarmHistory) + HistoryRows(old(storage.nextHistoryId), published[|old(published)|..], now)
      ensures storage.nextHistoryId == old(storage.nextHistoryId) + (|storage.alarmHistory| - |old(storage.alarmHistory)|)
    {
      var state := LoadState(rule);
      if rule.sensorField !in data {
        return;
      }
      var sensorValue := data[rule.sensorField];
      var conditionViolated, shuntValue := EvaluateRuleCondition(rule, sensorValue);
      ghost var prior := PriorIn(old(storage.alarmStates), rule);
      var triggered := AdvanceState(state, conditionViolated, sensorValue, shuntValue, rule.durationMinutes, now);
      assert StepResult(state.View(), triggered) == StepFor(rule, prior, deviceData, sensorValue, now);
      assert triggered == Fires(rule, old(storage.alarmStates), deviceData, data, now);
      if triggered {
        PublishAndRecord(CreateAlarmData(rule, state.View(), sensorValue, shuntValue, now), now);
      }
      var _ := storage.SaveAlarmState(state, now);
    }

    /** A trigger: the payload is published once and recorded as one history row. */
    method PublishAndRecord(alarmData: AlarmData, now: real)
      requires Valid()
      modifies this`published, storage
      ensures Valid()
      ensures published == old(published) + [alarmData]
      ensures storage.alarmHistory == old(storage.alarmHistory) + HistoryRows(old(storage.nextHistoryId), [alarmData], now)
      ensures storage.nextHistoryId == old(storage.nextHistoryId) + 1
      ensures storage.alarmRules == old(storage.alarmRules) && storage.alarmStates == old(storage.alarmStates)
    {
      published := published + [alarmData];
      var _ := storage.SaveAlarmHistory(alarmData.ruleId, alarmData.deviceId, alarmData, now);
    }

    /** Loads the rule's stored state, or makes a fresh INACTIVE one when none is stored. */
    method LoadState(rule: AlarmRule) returns (state: AlarmState)
      requires Valid()
      ensures fresh(state) && state.View() == PriorState(rule) && state.ruleId == rule.ruleId
    {
      var stored := storage.GetAlarmState(rule.ruleId);
      if stored == null {
        state := new AlarmState(rule.ruleId, rule.deviceId, Inactive);
      } else {
        state := stored;
      }
    }

    /** The primary comparison and, for a conditional rule, the shunt comparison against the cache. */
    method EvaluateRuleCondition(rule: AlarmRule, sensorValue: real) returns (violated: bool, shuntValue: Option<real>)
      ensures violated == Violated(rule, sensorValue, deviceData)
      ensures shuntValue == ShuntValueFor(rule, deviceData)
      ensures violated && IsConditional(rule) ==> rule.shuntOperator.Some?
    {
      var primaryViolated := EvaluateCondition(sensorValue, rule.thresholdValue, rule.comparisonOperator);
      var shuntSatisfied := true;
      shuntValue := None;
      if IsConditional(rule) {
        var shunt := EvaluateShuntCondition(rule, deviceData);
        shuntSatisfied, shuntValue := shunt.satisfied, shunt.value;
      }
      violated := primaryViolated && shuntSatisfied;
    }

    /**
     * Starts, continues or clears the violation and triggers once the
     * duration is reached, changing `state` in place.
     */
    static method AdvanceState(state: AlarmState, violated: bool, sensorValue: real, shuntValue: Option<real>,
                               durationMinutes: int, now: real) returns (triggered: bool)
      modifies state
      ensures StepResult(state.View(), triggered) ==
        EvaluateStep(old(state.View()), violated, sensorValue, shuntValue, durationMinutes, now)
    {
      triggered := false;
      if violated {
        if !state.IsViolationActive() {
          state.StartViolation(now, sensorValue, shuntValue);
        } else {
          state.lastViolation := Some(now);
          state.lastValue := Some(sensorValue);
          if shuntValue.Some? {
            state.lastShuntValue := shuntValue;
          }
        }
        var violationDuration := state.ViolationDurationMinutes(now);
        if violationDuration >= durationMinutes as real && state.status != Triggered {
          state.TriggerAlarm(now);
          triggered := true;
        }
      } else if state.IsViolationActive() {
        state.ClearViolation();
      }
    }

    /**
     * `_process_device_alarms`: evaluates each enabled rule of the device.
     * Rules of other devices, including conditional rules that use this
     * device as their shunt, are not evaluated.
     */
    method ProcessDeviceAlarms(deviceId: string, data: Reading, now: real)
      requires Valid()
      modifies this`published, storage
      ensures Valid()
      ensures storage.alarmRules == old(storage.alarmRules)
      ensures DeviceRoundRecorded(old(storage.alarmRules), old(storage.alarmStates), storage.alarmStates,
                                  deviceData, deviceId, data, now, old(published), published,
                                  old(storage.alarmHistory), storage.alarmHistory,
                                  old(storage.nextHistoryId), storage.nextHistoryId)
    {
      ghost var table, before := storage.alarmRules, storage.alarmStates;
      ghost var oldP, oldH, oldNext := published, storage.alarmHistory, storage.nextHistoryId;
      var rules := LoadDeviceRules(deviceId);
      // `get_all_alarm_rules` returns enabled rules only, so the source's skip of disabled ones never fires.
      EvaluateRules(rules, data, now);
      DeviceRoundFromRules(table, before, deviceData, deviceId, data, now, rules, oldP, oldH, oldNext);
      assert published[|oldP|..] == RoundAlarms(rules, before, deviceData, data, now);
    }

    /** `get_all_alarm_rules(device_id)`: the enabled rules of the device, each decoded from its own row. */
    method LoadDeviceRules(deviceId: string) returns (rules: seq<AlarmRule>)
      requires Valid()
      ensures forall id :: id in storage.alarmRules && RowSelected(storage.alarmRules[id], Some(deviceId)) ==>
        exists j :: 0 <= j < |rules| && rules[j].ruleId == id
      ensures forall j :: 0 <= j < |rules| ==>
        && rules[j].ruleId in storage.alarmRules && RowSelected(storage.alarmRules[rules[j].ruleId], Some(deviceId))
        && RuleFromDict(storage.alarmRules[rules[j].ruleId].ruleData) == Some(rules[j])
      ensures forall a, b :: 0 <= a < b < |rules| ==> rules[a].ruleId != rules[b].ruleId
      ensures forall j :: 0 <= j < |rules| ==> rules[j].enabled && (deviceId != "" ==> rules[j].deviceId == deviceId)
    {
      rules := storage.GetAllAlarmRules(Some(deviceId));
      assert forall id :: id in storage.alarmRules && RowSelected(storage.alarmRules[id], Some(deviceId)) ==>
        id in storage.SelectedIds(Some(deviceId));
      forall j | 0 <= j < |rules|
        ensures rules[j].ruleId in storage.alarmRules && RowSelected(storage.alarmRules[rules[j].ruleId], Some(deviceId))
        ensures RuleFromDict(storage.alarmRules[rules[j].ruleId].ruleData) == Some(rules[j])
        ensures rules[j].enabled && (deviceId != "" ==> rules[j].deviceId == deviceId)
      {
        assert RuleRowOk(rules[j].ruleId, storage.alarmRules[rules[j].ruleId]);
      }
    }

    /**
     * The loop of `_process_device_alarms`: evaluates each rule in turn. The
     * ids are distinct, so each evaluation starts from the rule's row as it
     * was before the round.
     */
    method EvaluateRules(rules: seq<AlarmRule>, data: Reading, now: real)
      requires Valid()
      requires forall a, b :: 0 <= a < b < |rules| ==> rules[a].ruleId != rules[b].ruleId
      modifies this`published, storage
      ensures Valid()
      ensures storage.alarmRules == old(storage.alarmRules)
      ensures storage.alarmStates == RoundStates(rules, old(storage.alarmStates), deviceData, data, now)
      ensures published == old(published) + RoundAlarms(rules, old(storage.alarmStates), deviceData, data, now)
      ensures storage.alarmHistory ==
        old(storage.alarmHistory) + HistoryRows(old(storage.nextHistoryId), published[|old(published)|..], now)
      ensures storage.nextHistoryId == old(storage.nextHistoryId) + (|storage.alarmHistory| - |old(storage.alarmHistory)|)
    {
      ghost var before := storage.alarmStates;
      var i := 0;
      while i < |rules|
        invariant 0 <= i <= |rules|
        invariant Valid()
        invariant storage.alarmRules == old(storage.alarmRules)
        invariant storage.alarmStates == RoundStates(rules[..i], before, deviceData, data, now)
        invariant published == old(published) + RoundAlarms(rules[..i], before, deviceData, data, now)
        invariant storage.alarmHistory ==
          old(storage.alarmHistory) + HistoryRows(old(storage.nextHistoryId), published[|old(published)|..], now)
        invariant storage.nextHistoryId == old(storage.nextHistoryId) + (|storage.alarmHistory| - |old(storage.alarmHistory)|)
      {
        var rule := rules[i];
        forall j | 0 <= j < i && rules[..i][j].sensorField in data ensures rules[..i][j].ruleId != rule.ruleId {
        }
        RoundStatesUntouched(rules[..i], before, deviceData, data, now, rule.ruleId);
        ghost var mid := storage.alarmStates;
        assert PriorIn(mid, rule) == PriorIn(before, rule);
        ghost var midPublished, midHistory, midNext := published, storage.alarmHistory, storage.nextHistoryId;
        EvaluateAlarmRule(rule, data, now);
        StatesStep(rules, i, before, mid, storage.alarmStates, deviceData, data, now);
        PublishedStep(old(published), midPublished, published, rules, i, before, mid, deviceData, data, now);
        HistoryExtends(old(storage.alarmHistory), midHistory, storage.alarmHistory, old(storage.nextHistoryId), midNext,
                       old(published), midPublished, published, now);
        i := i + 1;
      }
      assert rules[..i] == rules;
    }

    /** One turn of the background processor: takes the oldest queued reading and processes it. */
    method ProcessNext(now: real) returns (processed: bool)
      requires Valid()
      modifies this`published, this`processingQueue, storage
      ensures Valid()
      ensures processed <==> old(processingQueue) != []
      ensures processed ==> processingQueue == old(processingQueue)[1..]
      ensures processed ==>
        && storage.alarmRules == old(storage.alarmRules)
        && DeviceRoundRecorded(old(storage.alarmRules), old(storage.alarmStates), storage.alarmStates,
                               deviceData, old(processingQueue)[0].0, old(processingQueue)[0].1, now,
                               old(published), published, old(storage.alarmHistory), storage.alarmHistory,
                               old(storage.nextHistoryId), storage.nextHistoryId)
      ensures !processed ==> processingQueue == old(processingQueue) && published == old(published)
                             && unchanged(storage)
    {
      if processingQueue == [] {
        return false;
      }
      var (deviceId, data) := processingQueue[0];
      processingQueue := processingQueue[1..];
      ProcessDeviceAlarms(deviceId, data, now);
      processed := true;
    }

    /** `get_active_alarms`: the stored states whose violation is in progress. */
    method GetActiveAlarms() returns (active: seq<StateView>)
      requires Valid()
      ensures forall s :: s in active ==>
        ViolationActive(s) && s.ruleId in storage.alarmStates && s == storage.StateAt(s.ruleId)
      ensures forall id :: id in storage.alarmStates && ViolationActive(storage.StateAt(id)) ==>
        exists s :: s in active && s.ruleId == id
      ensures forall i, j :: 0 <= i < j < |active| ==> active[i].ruleId != active[j].ruleId
    {
      var all := storage.GetAllAlarmStates();
      active := ActiveOnly(all);
      forall id | id in storage.alarmStates && ViolationActive(storage.StateAt(id))
        ensures exists s :: s in active && s.ruleId == id
      {
        var i :| 0 <= i < |all| && all[i].ruleId == id;
        assert all[i] in active;
      }
    }
  }
}
