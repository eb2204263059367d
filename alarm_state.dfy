/**
 * Per-rule alarm state: the four statuses, the state's dictionary form, the
 * mutators that move a state between statuses, and the elapsed-time query.
 * The pure functions on `StateView` specify the in-place mutators of the
 * class `AlarmState`.
 */
module AlarmStates {
  import opened Options

  datatype AlarmStatus = Inactive | Active | Triggered | Acknowledged

  /** The enum value a status is stored as. */
  function StatusValue(s: AlarmStatus): string
  {
    match s
    case Inactive => "inactive"
    case Active => "active"
    case Triggered => "triggered"
    case Acknowledged => "acknowledged"
  }

  /** `AlarmStatus(s)`: the status stored as `s`, or None when `s` names none. */
  function ParseStatus(s: string): (r: Option<AlarmStatus>)
    ensures r.Some? ==> StatusValue(r.value) == s
    ensures r.None? ==> forall t :: StatusValue(t) != s
  {
    if s == "inactive" then Some(Inactive)
    else if s == "active" then Some(Active)
    else if s == "triggered" then Some(Triggered)
    else if s == "acknowledged" then Some(Acknowledged)
    else None
  }

  lemma StatusEncodingInjective(a: AlarmStatus, b: AlarmStatus)
    ensures StatusValue(a) == StatusValue(b) ==> a == b
    ensures ParseStatus(StatusValue(a)) == Some(a)
  {
  }

  /** The fields of an alarm state, as a value. */
  datatype StateView = StateView(
    ruleId: string,
    deviceId: string,
    status: AlarmStatus,
    violationStart: Option<real>,
    lastViolation: Option<real>,
    triggerTime: Option<real>,
    acknowledgeTime: Option<real>,
    violationCount: int,
    lastValue: Option<real>,
    lastShuntValue: Option<real>)

  /** The dictionary form of a state: the status as its string value. */
  datatype StateRecord = StateRecord(
    ruleId: string,
    deviceId: string,
    status: string,
    violationStart: Option<real>,
    lastViolation: Option<real>,
    triggerTime: Option<real>,
    acknowledgeTime: Option<real>,
    violationCount: int,
    lastValue: Option<real>,
    lastShuntValue: Option<real>)

  /** A state built with only its identifiers and status; every other field has its default. */
  function InitialView(ruleId: string, deviceId: string, status: AlarmStatus): StateView
  {
    StateView(ruleId, deviceId, status, None, None, None, None, 0, None, None)
  }

  /** `to_dict`: the status becomes its string value. */
  function ToRecord(v: StateView): (rec: StateRecord)
    ensures FromRecord(rec) == Some(v)
    ensures rec.ruleId == v.ruleId && rec.deviceId == v.deviceId
  {
    StateRecord(v.ruleId, v.deviceId, StatusValue(v.status), v.violationStart, v.lastViolation,
                v.triggerTime, v.acknowledgeTime, v.violationCount, v.lastValue, v.lastShuntValue)
  }

  /** `from_dict`: None when the status string is unknown (the enum constructor raises). */
  function FromRecord(rec: StateRecord): (r: Option<StateView>)
    ensures r.Some? <==> ParseStatus(rec.status).Some?
    ensures r.Some? ==> r.value.ruleId == rec.ruleId && r.value.deviceId == rec.deviceId
  {
    match ParseStatus(rec.status)
    case Some(s) =>
      Some(StateView(rec.ruleId, rec.deviceId, s, rec.violationStart, rec.lastViolation,
                     rec.triggerTime, rec.acknowledgeTime, rec.violationCount, rec.lastValue,
                     rec.lastShuntValue))
    case None => None
  }

  /** Decoding then re-encoding gives the record back. */
  lemma RecordRoundTrip(rec: StateRecord)
    requires FromRecord(rec).Some?
    ensures ToRecord(FromRecord(rec).value) == rec
  {
  }

  /** `is_violation_active`: a violation is in progress exactly while ACTIVE or TRIGGERED. */
  function ViolationActive(v: StateView): (b: bool)
    ensures b <==> StatusValue(v.status) == "active" || StatusValue(v.status) == "triggered"
  {
    v.status == Active || v.status == Triggered
  }

  /** `start_violation`. */
  function Started(v: StateView, timestamp: real, value: real, shuntValue: Option<real>): (r: StateView)
    ensures v.status == Inactive ==> r.status == Active && r.violationStart == Some(timestamp)
    ensures v.status != Inactive ==> r.status == v.status && r.violationStart == v.violationStart
    ensures r.violationCount == v.violationCount + 1
    ensures r.lastViolation == Some(timestamp) && r.lastValue == Some(value)
    ensures shuntValue.Some? ==> r.lastShuntValue == shuntValue
    ensures shuntValue.None? ==> r.lastShuntValue == v.lastShuntValue
    ensures r.ruleId == v.ruleId && r.deviceId == v.deviceId
    ensures r.triggerTime == v.triggerTime && r.acknowledgeTime == v.acknowledgeTime
  {
    var begun := if v.status == Inactive then v.(violationStart := Some(timestamp), status := Active) else v;
    begun.(lastViolation := Some(timestamp),
            violationCount := v.violationCount + 1,
            lastValue := Some(value),
            lastShuntValue := if shuntValue.Some? then shuntValue else v.lastShuntValue)
  }

  /** `clear_violation`: back to INACTIVE with the episode's bookkeeping reset. */
  function Cleared(v: StateView): (r: StateView)
    ensures r.status == Inactive && r.violationStart.None? && r.lastViolation.None?
    ensures r.violationCount == 0
    ensures r.triggerTime == v.triggerTime && r.lastValue == v.lastValue
    ensures r.lastShuntValue == v.lastShuntValue && r.acknowledgeTime == v.acknowledgeTime
    ensures r.ruleId == v.ruleId && r.deviceId == v.deviceId
  {
    v.(status := Inactive, violationStart := None, lastViolation := None, violationCount := 0)
  }

  /** `trigger_alarm`. */
  function TriggeredAt(v: StateView, timestamp: real): (r: StateView)
    ensures r.status == Triggered && r.triggerTime == Some(timestamp)
    ensures r.violationStart == v.violationStart && r.violationCount == v.violationCount
    ensures r.lastViolation == v.lastViolation && r.acknowledgeTime == v.acknowledgeTime
    ensures r.lastValue == v.lastValue && r.lastShuntValue == v.lastShuntValue
    ensures r.ruleId == v.ruleId && r.deviceId == v.deviceId
  {
    v.(status := Triggered, triggerTime := Some(timestamp))
  }

  /** `acknowledge_alarm`. */
  function AcknowledgedAt(v: StateView, timestamp: real): (r: StateView)
    ensures r.status == Acknowledged && r.acknowledgeTime == Some(timestamp)
    ensures r.violationStart == v.violationStart && r.triggerTime == v.triggerTime
    ensures r.lastViolation == v.lastViolation && r.violationCount == v.violationCount
    ensures r.lastValue == v.lastValue && r.lastShuntValue == v.lastShuntValue
    ensures r.ruleId == v.ruleId && r.deviceId == v.deviceId
  {
    v.(status := Acknowledged, acknowledgeTime := Some(timestamp))
  }

  /** `get_violation_duration_minutes`: minutes since the violation started, 0 without a start. */
  function DurationMinutes(v: StateView, currentTimestamp: real): (m: real)
    ensures v.violationStart.None? ==> m == 0.0
    ensures v.violationStart.Some? ==> 60.0 * m == currentTimestamp - v.violationStart.value
  {
    if v.violationStart.None? then 0.0 else (currentTimestamp - v.violationStart.value) / 60.0
  }

  /**
   * How the lifecycle moves a state in and out of an active violation: a
   * start from INACTIVE and a trigger enter it, a clear and an
   * acknowledgement leave it, and a start elsewhere keeps it as it was.
   */
  lemma ViolationActiveTransitions(v: StateView, t: real, value: real, shuntValue: Option<real>)
    ensures v.status == Inactive ==> ViolationActive(Started(v, t, value, shuntValue))
    ensures v.status != Inactive ==> (ViolationActive(Started(v, t, value, shuntValue)) <==> ViolationActive(v))
    ensures ViolationActive(TriggeredAt(v, t))
    ensures !ViolationActive(Cleared(v)) && !ViolationActive(AcknowledgedAt(v, t))
  {
  }

  /** The elapsed minutes never decrease as the clock advances. */
  lemma DurationMonotone(v: StateView, t1: real, t2: real)
    requires t1 <= t2
    ensures DurationMinutes(v, t1) <= DurationMinutes(v, t2)
  {
  }

  /** The mutable alarm state object that evaluation loads, changes in place and saves. */
  class AlarmState {
    var ruleId: string
    var deviceId: string
    var status: AlarmStatus
    var violationStart: Option<real>
    var lastViolation: Option<real>
    var triggerTime: Option<real>
    var acknowledgeTime: Option<real>
    var violationCount: int
    var lastValue: Option<real>
    var lastShuntValue: Option<real>

    function View(): StateView
      reads this
    {
      StateView(ruleId, deviceId, status, violationStart, lastViolation, triggerTime,
                acknowledgeTime, violationCount, lastValue, lastShuntValue)
    }

    constructor (ruleId: string, deviceId: string, status: AlarmStatus)
      ensures View() == InitialView(ruleId, deviceId, status)
    {
      this.ruleId := ruleId;
      this.deviceId := deviceId;
      this.status := status;
      violationStart, lastViolation, triggerTime, acknowledgeTime := None, None, None, None;
      violationCount := 0;
      lastValue, lastShuntValue := None, None;
    }

    /** The object `from_dict` builds from a decoded record. */
    constructor FromView(v: StateView)
      ensures View() == v
    {
      ruleId, deviceId, status := v.ruleId, v.deviceId, v.status;
      violationStart, lastViolation := v.violationStart, v.lastViolation;
      triggerTime, acknowledgeTime := v.triggerTime, v.acknowledgeTime;
      violationCount := v.violationCount;
      lastValue, lastShuntValue := v.lastValue, v.lastShuntValue;
    }

    method StartViolation(timestamp: real, value: real, shuntValue: Option<real>)
      modifies this
      ensures View() == Started(old(View()), timestamp, value, shuntValue)
    {
      if status == Inactive {
        violationStart := Some(timestamp);
        status := Active;
      }
      lastViolation := Some(timestamp);
      violationCount := violationCount + 1;
      lastValue := Some(value);
      if shuntValue.Some? {
        lastShuntValue := shuntValue;
      }
    }

    method ClearViolation()
      modifies this
      ensures View() == Cleared(old(View()))
    {
      status := Inactive;
      violationStart := None;
      lastViolation := None;
      violationCount := 0;
    }

    method TriggerAlarm(timestamp: real)
      modifies this
      ensures View() == TriggeredAt(old(View()), timestamp)
    {
      status := Triggered;
      triggerTime := Some(timestamp);
    }

    method AcknowledgeAlarm(timestamp: real)
      modifies this
      ensures View() == AcknowledgedAt(old(View()), timestamp)
    {
      status := Acknowledged;
      acknowledgeTime := Some(timestamp);
    }

    /** `get_violation_duration_minutes`. */
    function ViolationDurationMinutes(currentTimestamp: real): (m: real)
      reads this
      ensures violationStart.None? ==> m == 0.0
      ensures violationStart.Some? ==> 60.0 * m == currentTimestamp - violationStart.value
    {
      DurationMinutes(View(), currentTimestamp)
    }

    /** `is_violation_active`. */
    function IsViolationActive(): (b: bool)
      reads this
      ensures b <==> status == Active || status == Triggered
    {
      ViolationActive(View())
    }

    /** `to_dict`: the stored form, which decodes back to this state. */
    function ToDict(): (rec: StateRecord)
      reads this
      ensures FromRecord(rec) == Some(View())
      ensures rec.status == StatusValue(status)
    {
      ToRecord(View())
    }
  }
}
