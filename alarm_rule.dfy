/**
 * Alarm rule definitions: the two rule kinds, the six comparison operators,
 * their string encodings as stored in a rule's dictionary form, and the
 * validity check applied to a rule before it is accepted.
 */
module AlarmRules {
  import opened Options

  datatype AlarmType = SimpleThreshold | ConditionalThreshold

  datatype ComparisonOperator =
    | GreaterThan
    | LessThan
    | GreaterEqual
    | LessEqual
    | Equal
    | NotEqual

  /** The enum value an alarm type is stored as. */
  function AlarmTypeValue(t: AlarmType): string
  {
    match t
    case SimpleThreshold => "simple_threshold"
    case ConditionalThreshold => "conditional_threshold"
  }

  /** `AlarmType(s)`: the alarm type stored as `s`, or None when `s` names none. */
  function ParseAlarmType(s: string): (t: Option<AlarmType>)
    ensures t.Some? ==> AlarmTypeValue(t.value) == s
    ensures t.None? ==> forall u :: AlarmTypeValue(u) != s
  {
    if s == "simple_threshold" then Some(SimpleThreshold)
    else if s == "conditional_threshold" then Some(ConditionalThreshold)
    else None
  }

  /** The symbol an operator is stored as. */
  function OperatorValue(op: ComparisonOperator): string
  {
    match op
    case GreaterThan => ">"
    case LessThan => "<"
    case GreaterEqual => ">="
    case LessEqual => "<="
    case Equal => "=="
    case NotEqual => "!="
  }

  /** `ComparisonOperator(s)`: the operator stored as `s`, or None. */
  function ParseOperator(s: string): (op: Option<ComparisonOperator>)
    ensures op.Some? ==> OperatorValue(op.value) == s
    ensures op.None? ==> forall o :: OperatorValue(o) != s
  {
    if s == ">" then Some(GreaterThan)
    else if s == "<" then Some(LessThan)
    else if s == ">=" then Some(GreaterEqual)
    else if s == "<=" then Some(LessEqual)
    else if s == "==" then Some(Equal)
    else if s == "!=" then Some(NotEqual)
    else None
  }

  lemma AlarmTypeEncodingInjective(a: AlarmType, b: AlarmType)
    ensures AlarmTypeValue(a) == AlarmTypeValue(b) ==> a == b
    ensures ParseAlarmType(AlarmTypeValue(a)) == Some(a)
  {
  }

  lemma OperatorEncodingInjective(a: ComparisonOperator, b: ComparisonOperator)
    ensures OperatorValue(a) == OperatorValue(b) ==> a == b
    ensures ParseOperator(OperatorValue(a)) == Some(a)
  {
  }

  datatype AlarmRule = AlarmRule(
    ruleId: string,
    deviceId: string,
    alarmType: AlarmType,
    sensorField: string,
    thresholdValue: real,
    comparisonOperator: ComparisonOperator,
    durationMinutes: int,
    description: string,
    enabled: bool,
    shuntDeviceId: Option<string>,
    shuntField: Option<string>,
    shuntValue: Option<real>,
    shuntOperator: Option<ComparisonOperator>,
    createdAt: Option<string>,
    updatedAt: Option<string>)

  /** The dictionary form of a rule: the same fields with the enums as strings. */
  datatype RuleRecord = RuleRecord(
    ruleId: string,
    deviceId: string,
    alarmType: string,
    sensorField: string,
    thresholdValue: real,
    comparisonOperator: string,
    durationMinutes: int,
    description: string,
    enabled: bool,
    shuntDeviceId: Option<string>,
    shuntField: Option<string>,
    shuntValue: Option<real>,
    shuntOperator: Option<string>,
    createdAt: Option<string>,
    updatedAt: Option<string>)

  /** `is_conditional`: the rule's stored type string is the conditional one. */
  function IsConditional(r: AlarmRule): (b: bool)
    ensures b <==> AlarmTypeValue(r.alarmType) == "conditional_threshold"
    ensures !b <==> r.alarmType == SimpleThreshold
  {
    r.alarmType == ConditionalThreshold
  }

  /** Python truthiness of an optional string: present and non-empty. */
  predicate Truthy(s: Option<string>)
  {
    s.Some? && s.value != ""
  }

  /** `to_dict`: enums become their values; the shunt operator only when present. */
  function RuleToDict(r: AlarmRule): (d: RuleRecord)
    ensures RuleFromDict(d) == Some(r)
    ensures ParseAlarmType(d.alarmType) == Some(r.alarmType)
    ensures ParseOperator(d.comparisonOperator) == Some(r.comparisonOperator)
    ensures d.shuntOperator.None? <==> r.shuntOperator.None?
  {
    RuleRecord(r.ruleId, r.deviceId, AlarmTypeValue(r.alarmType), r.sensorField,
               r.thresholdValue, OperatorValue(r.comparisonOperator), r.durationMinutes,
               r.description, r.enabled, r.shuntDeviceId, r.shuntField, r.shuntValue,
               if r.shuntOperator.Some? then Some(OperatorValue(r.shuntOperator.value)) else None,
               r.createdAt, r.updatedAt)
  }

  /**
   * `from_dict`: None when an enum string is unknown (the constructor call
   * raises). A shunt operator is converted only when its string is truthy; an
   * empty string is read as no operator, which every later use treats alike.
   */
  function RuleFromDict(d: RuleRecord): (r: Option<AlarmRule>)
    ensures r.Some? <==>
      && ParseAlarmType(d.alarmType).Some?
      && ParseOperator(d.comparisonOperator).Some?
      && (Truthy(d.shuntOperator) ==> ParseOperator(d.shuntOperator.value).Some?)
    ensures r.Some? ==> r.value.ruleId == d.ruleId && r.value.deviceId == d.deviceId
                        && r.value.enabled == d.enabled && r.value.sensorField == d.sensorField
  {
    match (ParseAlarmType(d.alarmType), ParseOperator(d.comparisonOperator))
    case (Some(t), Some(op)) =>
      var shuntOp := if Truthy(d.shuntOperator) then ParseOperator(d.shuntOperator.value) else None;
      if Truthy(d.shuntOperator) && shuntOp.None? then None
      else Some(AlarmRule(d.ruleId, d.deviceId, t, d.sensorField, d.thresholdValue, op,
                          d.durationMinutes, d.description, d.enabled, d.shuntDeviceId,
                          d.shuntField, d.shuntValue, shuntOp, d.createdAt, d.updatedAt))
    case _ => None
  }

  /** Decoding then re-encoding gives the record back, unless it held an empty shunt operator. */
  lemma {:induction false} RuleDictRoundTrip(d: RuleRecord)
    requires RuleFromDict(d).Some?
    requires d.shuntOperator != Some("")
    ensures RuleToDict(RuleFromDict(d).value) == d
  {
    var t := ParseAlarmType(d.alarmType).value;
    var op := ParseOperator(d.comparisonOperator).value;
    assert AlarmTypeValue(t) == d.alarmType;
    assert OperatorValue(op) == d.comparisonOperator;
  }

  /**
   * `validate`: identifiers and sensor field non-empty, a positive duration,
   * and for a conditional rule all four shunt settings present (a shunt value
   * of 0 counts as present).
   */
  function Validate(r: AlarmRule): (ok: bool)
    ensures ok ==> r.ruleId != "" && r.deviceId != "" && r.sensorField != ""
    ensures ok ==> r.durationMinutes > 0
    ensures ok && IsConditional(r) ==>
      Truthy(r.shuntDeviceId) && Truthy(r.shuntField) && r.shuntValue.Some? && r.shuntOperator.Some?
    ensures !ok ==>
      || r.ruleId == "" || r.deviceId == "" || r.sensorField == ""
      || r.durationMinutes <= 0
      || (IsConditional(r) &&
          !(Truthy(r.shuntDeviceId) && Truthy(r.shuntField) && r.shuntValue.Some? && r.shuntOperator.Some?))
  {
    if r.ruleId == "" || r.deviceId == "" || r.sensorField == "" then false
    else if r.durationMinutes <= 0 then false
    else if IsConditional(r) &&
            !(Truthy(r.shuntDeviceId) && Truthy(r.shuntField) && r.shuntValue.Some? && r.shuntOperator.Some?)
    then false
    else true
  }

  /** A simple rule's validity does not look at any of its shunt settings. */
  lemma SimpleRuleIgnoresShunt(r: AlarmRule, device: Option<string>, field: Option<string>,
                               value: Option<real>, op: Option<ComparisonOperator>)
    requires !IsConditional(r)
    ensures Validate(r) ==
      Validate(r.(shuntDeviceId := device, shuntField := field, shuntValue := value, shuntOperator := op))
  {
  }
}
