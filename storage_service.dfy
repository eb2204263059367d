/**
 * The alarm store: a rules table and a states table keyed by rule id, and an
 * append-only history table with increasing row ids. The tables hold the
 * encoded dictionary forms of rules and states, as the database does.
 */
module Storage {
  import opened Options
  import opened AlarmRules
  import opened AlarmStates
  import opened AlarmNotifications

  const SecondsPerDay: real := 86400.0

  /** A row of `alarm_rules`: the indexed columns beside the encoded rule. */
  datatype RuleRow = RuleRow(deviceId: string, ruleData: RuleRecord, enabled: bool,
                             createdAt: real, updatedAt: real)

  /** A row of `alarm_states`. */
  datatype StateRow = StateRow(deviceId: string, stateData: StateRecord, updatedAt: real)

  /** A row of `alarm_history`; `id` is the auto-increment key. */
  datatype HistoryRow = HistoryRow(id: nat, ruleId: string, deviceId: string,
                                   alarmData: AlarmData, timestamp: real)

  ghost predicate IdsIncreasing(h: seq<HistoryRow>)
  {
    forall i, j :: 0 <= i < j < |h| ==> h[i].id < h[j].id
  }

  /** The history rows a cleanup with this cutoff keeps, in their order. */
  function KeepSince(h: seq<HistoryRow>, cutoff: real): (kept: seq<HistoryRow>)
    ensures forall row :: row in kept <==> row in h && row.timestamp >= cutoff
    ensures IdsIncreasing(h) ==> IdsIncreasing(kept)
  {
    if h == [] then []
    else if h[0].timestamp < cutoff then KeepSince(h[1..], cutoff)
    else
      var rest := KeepSince(h[1..], cutoff);
      assert IdsIncreasing(h) ==> forall row :: row in rest ==> h[0].id < row.id by {
        if IdsIncreasing(h) {
          forall row | row in rest ensures h[0].id < row.id {
            var k :| 0 <= k < |h[1..]| && h[1..][k] == row;
            assert h[k + 1] == row;
          }
        }
      }
      [h[0]] + rest
  }

  /** The row filter of `get_all_alarm_rules`: enabled, and of the device when one is given. */
  predicate RowSelected(row: RuleRow, deviceId: Option<string>)
  {
    row.enabled && (deviceId.None? || deviceId.value == "" || row.deviceId == deviceId.value)
  }

  /** A rules-table row is well formed: it decodes, under its own id, matching its columns. */
  predicate RuleRowOk(id: string, row: RuleRow)
  {
    var r := RuleFromDict(row.ruleData);
    r.Some? && r.value.ruleId == id && r.value.deviceId == row.deviceId && r.value.enabled == row.enabled
  }

  /** A states-table row is well formed: it decodes, under its own id. */
  predicate StateRowOk(id: string, row: StateRow)
  {
    var s := FromRecord(row.stateData);
    s.Some? && s.value.ruleId == id && s.value.deviceId == row.deviceId
  }

  class StorageService {
    var alarmRules: map<string, RuleRow>
    var alarmStates: map<string, StateRow>
    var alarmHistory: seq<HistoryRow>
    var nextHistoryId: nat

    ghost predicate Valid()
      reads this
    {
      && (forall id :: id in alarmRules ==> RuleRowOk(id, alarmRules[id]))
      && (forall id :: id in alarmStates ==> StateRowOk(id, alarmStates[id]))
      && IdsIncreasing(alarmHistory)
      && (forall i :: 0 <= i < |alarmHistory| ==> alarmHistory[i].id < nextHistoryId)
    }

    /** The rule stored under `id`, decoded. */
    ghost function RuleAt(id: string): AlarmRule
      reads this
      requires Valid() && id in alarmRules
    {
      RuleFromDict(alarmRules[id].ruleData).value
    }

    /** The state stored under `id`, decoded. */
    ghost function StateAt(id: string): StateView
      reads this
      requires Valid() && id in alarmStates
    {
      FromRecord(alarmStates[id].stateData).value
    }

    /** The ids `get_all_alarm_rules(deviceId)` selects: enabled rules, of that device when one is given. */
    ghost function SelectedIds(deviceId: Option<string>): set<string>
      reads this
    {
      set id | id in alarmRules && RowSelected(alarmRules[id], deviceId)
    }

    constructor ()
      ensures Valid()
      ensures alarmRules == map[] && alarmStates == map[] && alarmHistory == []
    {
      alarmRules := map[];
      alarmStates := map[];
      alarmHistory := [];
      nextHistoryId := 1;
    }

    /** `save_alarm_rule`: an upsert keyed by rule id that keeps the first creation time. */
    method SaveAlarmRule(rule: AlarmRule, now: real) returns (ok: bool)
      requires Valid()
      modifies this
      ensures Valid() && ok
      ensures alarmRules == old(alarmRules)[rule.ruleId := RuleRow(
        rule.deviceId, RuleToDict(rule), rule.enabled,
        if rule.ruleId in old(alarmRules) then old(alarmRules)[rule.ruleId].createdAt else now,
        now)]
      ensures RuleAt(rule.ruleId) == rule
      ensures alarmStates == old(alarmStates) && alarmHistory == old(alarmHistory)
      ensures nextHistoryId == old(nextHistoryId)
    {
      var createdAt := if rule.ruleId in alarmRules then alarmRules[rule.ruleId].createdAt else now;
      alarmRules := alarmRules[rule.ruleId := RuleRow(rule.deviceId, RuleToDict(rule), rule.enabled, createdAt, now)];
      ok := true;
    }

    /** `get_alarm_rule`. */
    method GetAlarmRule(ruleId: string) returns (r: Option<AlarmRule>)
      requires Valid()
      ensures r.None? <==> ruleId !in alarmRules
      ensures r.Some? ==> r.value == RuleAt(ruleId) && r.value.ruleId == ruleId
    {
      if ruleId in alarmRules {
        r := RuleFromDict(alarmRules[ruleId].ruleData);
      } else {
        r := None;
      }
    }

    /**
     * `get_all_alarm_rules`: every selected rule exactly once, in no
     * particular order (the query has no ORDER BY).
     */
    method GetAllAlarmRules(deviceId: Option<string>) returns (rules: seq<AlarmRule>)
      requires Valid()
      ensures forall i :: 0 <= i < |rules| ==>
        rules[i].ruleId in SelectedIds(deviceId) && rules[i] == RuleAt(rules[i].ruleId)
      ensures forall id :: id in SelectedIds(deviceId) ==>
        exists i :: 0 <= i < |rules| && rules[i].ruleId == id
      ensures forall i, j :: 0 <= i < j < |rules| ==> rules[i].ruleId != rules[j].ruleId
    {
      var everyDevice := deviceId.None? || deviceId.value == "";
      var table := alarmRules;
      var remaining := table.Keys;
      ghost var done: set<string> := {};
      rules := [];
      while remaining != {}
        invariant remaining + done == table.Keys && remaining !! done
        invariant forall i :: 0 <= i < |rules| ==>
          && rules[i].ruleId in done && RowSelected(table[rules[i].ruleId], deviceId)
          && rules[i] == RuleFromDict(table[rules[i].ruleId].ruleData).value
        invariant forall id :: id in done && RowSelected(table[id], deviceId) ==>
          exists i :: 0 <= i < |rules| && rules[i].ruleId == id
        invariant forall i, j :: 0 <= i < j < |rules| ==> rules[i].ruleId != rules[j].ruleId
        decreases remaining
      {
        var id :| id in remaining;
        var row := table[id];
        if row.enabled && (everyDevice || row.deviceId == deviceId.value) {
          ghost var before := rules;
          assert RuleRowOk(id, row);
          rules := rules + [RuleFromDict(row.ruleData).value];
          assert rules[|rules| - 1].ruleId == id;
          assert forall j :: 0 <= j < |before| ==> rules[j] == before[j];
          forall a, b | 0 <= a < b < |rules| ensures rules[a].ruleId != rules[b].ruleId {
            assert rules[a] == before[a];
            if b < |before| {
              assert rules[b] == before[b];
            }
          }
        }
        remaining := remaining - {id};
        done := done + {id};
      }
    }

    /** `delete_alarm_rule`: removes the rule and, cascading, its state; succeeds even when absent. */
    method DeleteAlarmRule(ruleId: string) returns (ok: bool)
      requires Valid()
      modifies this
      ensures Valid() && ok
      ensures alarmRules == old(alarmRules) - {ruleId}
      ensures alarmStates == old(alarmStates) - {ruleId}
      ensures alarmHistory == old(alarmHistory) && nextHistoryId == old(nextHistoryId)
    {
      alarmRules := alarmRules - {ruleId};
      alarmStates := alarmStates - {ruleId};
      ok := true;
    }

    /** `save_alarm_state`: an upsert keyed by the state's rule id. */
    method SaveAlarmState(state: AlarmState, now: real) returns (ok: bool)
      requires Valid()
      modifies this
      ensures Valid() && ok
      ensures alarmStates == old(alarmStates)[state.ruleId := StateRow(state.deviceId, state.ToDict(), now)]
      ensures StateAt(state.ruleId) == state.View()
      ensures alarmRules == old(alarmRules) && alarmHistory == old(alarmHistory)
      ensures nextHistoryId == old(nextHistoryId)
    {
      alarmStates := alarmStates[state.ruleId := StateRow(state.deviceId, state.ToDict(), now)];
      ok := true;
    }

    /** `get_alarm_state`: a fresh object holding the stored state, or null when none was saved. */
    method GetAlarmState(ruleId: string) returns (state: AlarmState?)
      requires Valid()
      ensures state == null <==> ruleId !in alarmStates
      ensures state != null ==> fresh(state) && state.View() == StateAt(ruleId)
    {
      if ruleId in alarmStates {
        state := new AlarmState.FromView(FromRecord(alarmStates[ruleId].stateData).value);
      } else {
        state := null;
      }
    }

    /** `get_all_alarm_states`: every stored state exactly once, in no particular order. */
    method GetAllAlarmStates() returns (states: seq<StateView>)
      requires Valid()
      ensures forall i :: 0 <= i < |states| ==>
        states[i].ruleId in alarmStates && states[i] == StateAt(states[i].ruleId)
      ensures forall id :: id in alarmStates ==>
        exists i :: 0 <= i < |states| && states[i].ruleId == id
      ensures forall i, j :: 0 <= i < j < |states| ==> states[i].ruleId != states[j].ruleId
    {
      var remaining := alarmStates.Keys;
      ghost var done: set<string> := {};
      states := [];
      while remaining != {}
        invariant remaining + done == alarmStates.Keys && remaining !! done
        invariant forall i :: 0 <= i < |states| ==>
          states[i].ruleId in done && states[i] == StateAt(states[i].ruleId)
        invariant forall id :: id in done ==> exists i :: 0 <= i < |states| && states[i].ruleId == id
        invariant forall i, j :: 0 <= i < j < |states| ==> states[i].ruleId != states[j].ruleId
        decreases remaining
      {
        var id :| id in remaining;
        ghost var before := states;
        states := states + [FromRecord(alarmStates[id].stateData).value];
        assert states[|states| - 1].ruleId == id;
        assert forall j :: 0 <= j < |before| ==> states[j] == before[j];
        remaining := remaining - {id};
        done := done + {id};
      }
    }

    /** `save_alarm_history`: appends one row with the next id; earlier rows are untouched. */
    method SaveAlarmHistory(ruleId: string, deviceId: string, alarmData: AlarmData, now: real)
      returns (ok: bool)
      requires Valid()
      modifies this
      ensures Valid() && ok
      ensures alarmHistory == old(alarmHistory) + [HistoryRow(old(nextHistoryId), ruleId, deviceId, alarmData, now)]
      ensures nextHistoryId == old(nextHistoryId) + 1
      ensures alarmRules == old(alarmRules) && alarmStates == old(alarmStates)
    {
      alarmHistory := alarmHistory + [HistoryRow(nextHistoryId, ruleId, deviceId, alarmData, now)];
      nextHistoryId := nextHistoryId + 1;
      ok := true;
    }

    /** `cleanup_old_history`: deletes the rows older than `retentionDays` days before `now`. */
    method CleanupOldHistory(retentionDays: int, now: real) returns (ok: bool)
      requires Valid()
      modifies this
      ensures Valid() && ok
      ensures alarmHistory == KeepSince(old(alarmHistory), now - retentionDays as real * SecondsPerDay)
      ensures alarmRules == old(alarmRules) && alarmStates == old(alarmStates)
      ensures nextHistoryId == old(nextHistoryId)
    {
      var cutoff := now - retentionDays as real * SecondsPerDay;
      alarmHistory := KeepSince(alarmHistory, cutoff);
      ok := true;
    }
  }
}
