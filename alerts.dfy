/**
 * The hub's alert rule engine: a table of threshold rules, a cooldown map keyed by alert
 * key, and the environmental, animal-health and system checks that consult both. Time is a
 * whole number of seconds passed in by the caller.
 */
module Alerts {
  import opened Wrappers

  // ---------------------------------------------------------------------------
  // Rules
  // ---------------------------------------------------------------------------

  /** One threshold rule; `condition` is "min", "max", "range" or whatever configuration says. */
  datatype Rule = Rule(
    parameter: string,
    condition: string,
    thresholdMin: Option<real>,
    thresholdMax: Option<real>,
    severity: string,
    cooldownMinutes: int)

  /** One entry of the `alert_rules` configuration section; an absent setting is None. */
  datatype RuleConfig = RuleConfig(
    condition: Option<string>,
    min: Option<real>,
    max: Option<real>,
    severity: Option<string>,
    cooldown: Option<int>)

  /** The built-in rule table. */
  function DefaultRules(): map<string, Rule>
  {
    map[
      "temperature" := Rule("temperature", "range", Some(5.0), Some(50.0), "WARNING", 30),
      "humidity" := Rule("humidity", "range", Some(20.0), Some(95.0), "WARNING", 30),
      "co2" := Rule("co2", "max", None, Some(1200.0), "WARNING", 60),
      "nh3" := Rule("nh3", "max", None, Some(30.0), "CRITICAL", 15),
      "pm25" := Rule("pm25", "max", None, Some(100.0), "WARNING", 60),
      "co" := Rule("co", "max", None, Some(50.0), "CRITICAL", 10),
      "heart_rate" := Rule("heart_rate", "range", Some(30.0), Some(150.0), "WARNING", 30),
      "spo2" := Rule("spo2", "min", Some(88.0), None, "CRITICAL", 15),
      "animal_temperature" := Rule("animal_temperature", "range", Some(35.0), Some(42.0), "WARNING", 60),
      "moisture_level" := Rule("moisture_level", "min", Some(20.0), None, "WARNING", 120)
    ]
  }

  /** The rule a configuration entry describes: condition "max", severity WARNING and 60 minutes unless given. */
  function RuleFromConfig(param: string, c: RuleConfig): Rule
  {
    Rule(param, c.condition.GetOr("max"), c.min, c.max, c.severity.GetOr("WARNING"), c.cooldown.GetOr(60))
  }

  /** Whether configuration has an entry for `param`. */
  predicate Configured(config: seq<(string, RuleConfig)>, param: string)
  {
    exists i :: 0 <= i < |config| && config[i].0 == param
  }

  /** The entry configuration gives for `param`; with repeated entries the last one wins. */
  function LastConfig(config: seq<(string, RuleConfig)>, param: string): RuleConfig
    requires Configured(config, param)
    decreases |config|
  {
    var n := |config| - 1;
    if config[n].0 == param then config[n].1
    else
      assert Configured(config[..n], param) by {
        var i :| 0 <= i < |config| && config[i].0 == param;
        assert config[..n][i].0 == param;
      }
      LastConfig(config[..n], param)
  }

  /** The default table with every configured entry written over it, in order. */
  function Overlay(base: map<string, Rule>, config: seq<(string, RuleConfig)>): map<string, Rule>
    decreases |config|
  {
    if |config| == 0 then base
    else
      var n := |config| - 1;
      Overlay(base, config[..n])[config[n].0 := RuleFromConfig(config[n].0, config[n].1)]
  }

  /** Overlaying replaces exactly the configured parameters and keeps every other rule of the base. */
  lemma {:induction false} OverlayLookup(base: map<string, Rule>, config: seq<(string, RuleConfig)>, p: string)
    ensures p in Overlay(base, config) <==> p in base || Configured(config, p)
    ensures Configured(config, p) ==> Overlay(base, config)[p] == RuleFromConfig(p, LastConfig(config, p))
    ensures !Configured(config, p) && p in base ==> Overlay(base, config)[p] == base[p]
    decreases |config|
  {
    if |config| > 0 {
      var n := |config| - 1;
      OverlayLookup(base, config[..n], p);
      if config[n].0 != p {
        if Configured(config, p) {
          var i :| 0 <= i < |config| && config[i].0 == p;
          assert config[..n][i].0 == p;
        }
        if Configured(config[..n], p) {
          var i :| 0 <= i < n && config[..n][i].0 == p;
          assert config[i].0 == p;
        }
      }
    }
  }

  /**
   * `_load_alert_rules`: copy the default table, then write each configured entry over the
   * rule of its parameter.
   */
  method LoadAlertRules(config: seq<(string, RuleConfig)>) returns (rules: map<string, Rule>)
    ensures forall p :: p in rules <==> p in DefaultRules() || Configured(config, p)
    ensures forall p :: Configured(config, p) ==> rules[p] == RuleFromConfig(p, LastConfig(config, p))
    ensures forall p :: !Configured(config, p) && p in DefaultRules() ==> rules[p] == DefaultRules()[p]
  {
    rules := DefaultRules();
    for i := 0 to |config|
      invariant rules == Overlay(DefaultRules(), config[..i])
    {
      assert config[..i + 1][..i] == config[..i];
      rules := rules[config[i].0 := RuleFromConfig(config[i].0, config[i].1)];
    }
    assert config[..|config|] == config;
    forall p ensures p in rules <==> p in DefaultRules() || Configured(config, p) {
      OverlayLookup(DefaultRules(), config, p);
    }
    forall p | Configured(config, p) ensures rules[p] == RuleFromConfig(p, LastConfig(config, p)) {
      OverlayLookup(DefaultRules(), config, p);
    }
    forall p | !Configured(config, p) && p in DefaultRules() ensures rules[p] == DefaultRules()[p] {
      OverlayLookup(DefaultRules(), config, p);
    }
  }

  // ---------------------------------------------------------------------------
  // Rule evaluation
  // ---------------------------------------------------------------------------

  datatype Violation = TooLow | TooHigh

  /** The rule compares values against its lower threshold. */
  predicate ChecksLow(rule: Rule)
  {
    (rule.condition == "min" || rule.condition == "range") && rule.thresholdMin.Some?
  }

  /** The rule compares values against its upper threshold. */
  predicate ChecksHigh(rule: Rule)
  {
    (rule.condition == "max" || rule.condition == "range") && rule.thresholdMax.Some?
  }

  /**
   * `_evaluate_rule`: a value is too low when strictly under a lower threshold the rule checks,
   * too high when strictly over an upper one it checks and not too low; "too low" is reported
   * first, and a value equal to a threshold, an unknown condition or a missing threshold gives
   * no violation.
   */
  function Evaluate(value: real, rule: Rule): (v: Option<Violation>)
    ensures v == Some(TooLow) <==> ChecksLow(rule) && value < rule.thresholdMin.value
    ensures v == Some(TooHigh) <==>
      ChecksHigh(rule) && value > rule.thresholdMax.value && !(ChecksLow(rule) && value < rule.thresholdMin.value)
  {
    if rule.condition == "min" && rule.thresholdMin.Some? then
      if value < rule.thresholdMin.value then Some(TooLow) else None
    else if rule.condition == "max" && rule.thresholdMax.Some? then
      if value > rule.thresholdMax.value then Some(TooHigh) else None
    else if rule.condition == "range" then
      if rule.thresholdMin.Some? && value < rule.thresholdMin.value then Some(TooLow)
      else if rule.thresholdMax.Some? && value > rule.thresholdMax.value then Some(TooHigh)
      else None
    else None
  }

  // ---------------------------------------------------------------------------
  // Alerts, cooldowns and routing
  // ---------------------------------------------------------------------------

  /** What an alert's message reports. */
  datatype Detail = Threshold(parameter: string, violation: Violation, value: real) | LowActivity

  datatype Alert = Alert(alertType: string, deviceId: string, severity: string, detail: Detail)

  /** `_check_cooldown`: a key never recorded passes; otherwise strictly more than the cooldown must have elapsed. */
  predicate CooldownPassed(recent: map<string, int>, key: string, cooldownMinutes: int, now: int)
  {
    key !in recent || now - recent[key] > cooldownMinutes * 60
  }

  datatype Channel = Email | Webhook

  /** `_send_notifications`: CRITICAL and WARNING alerts go to email and webhook, any other severity to the webhook only. */
  function NotificationChannels(severity: string): (channels: set<Channel>)
    ensures Webhook in channels
    ensures Email in channels <==> severity == "CRITICAL" || severity == "WARNING"
  {
    if severity == "CRITICAL" then {Email, Webhook}
    else if severity == "WARNING" then {Email, Webhook}
    else {Webhook}
  }

  /** The outcome of one rule check: the alert raised, if any, and the cooldown map after it. */
  datatype Step = Step(alert: Option<Alert>, recent: map<string, int>)

  /** The alerts of a whole check and the cooldown map after it. */
  datatype Scan = Scan(alerts: seq<Alert>, recent: map<string, int>)

  function AsSeq(a: Option<Alert>): seq<Alert>
  {
    if a.Some? then [a.value] else []
  }

  /**
   * One rule check as every `check_*` method writes it: evaluate the rule named `ruleName`,
   * and when it is violated and the cooldown of `key` has passed, raise the alert and record
   * `now` under `key`.
   */
  function Consider(rules: map<string, Rule>, recent: map<string, int>, ruleName: string, key: string,
                    value: real, alertType: string, deviceId: string, now: int): Step
  {
    if ruleName !in rules then Step(None, recent)
    else
      var rule := rules[ruleName];
      var v := Evaluate(value, rule);
      if v.Some? && CooldownPassed(recent, key, rule.cooldownMinutes, now) then
        Step(Some(Alert(alertType, deviceId, rule.severity, Threshold(ruleName, v.value, value))), recent[key := now])
      else Step(None, recent)
  }

  // ---------------------------------------------------------------------------
  // Environmental check
  // ---------------------------------------------------------------------------

  /** `check_environmental_alerts` over the first readings of `data`, in order. */
  function EnvScan(rules: map<string, Rule>, recent: map<string, int>, data: seq<(string, Option<real>)>, now: int): Scan
    decreases |data|
  {
    if |data| == 0 then Scan([], recent)
    else
      var n := |data| - 1;
      var prev := EnvScan(rules, recent, data[..n], now);
      var param := data[n].0;
      if data[n].1.None? || param !in rules then prev
      else
        var s := Consider(rules, prev.recent, param, param, data[n].1.value, "ENVIRONMENTAL_THRESHOLD", "BOM_STATION", now);
        Scan(prev.alerts + AsSeq(s.alert), s.recent)
  }

  /**
   * Every environmental alert comes from a reading that has a rule and violates it, carries
   * that rule's severity, and has its time recorded under the parameter's name.
   */
  lemma {:induction false} EnvAlertsJustified(rules: map<string, Rule>, recent: map<string, int>,
                                              data: seq<(string, Option<real>)>, now: int)
    ensures var r := EnvScan(rules, recent, data, now);
      forall a :: a in r.alerts ==>
        && a.alertType == "ENVIRONMENTAL_THRESHOLD" && a.deviceId == "BOM_STATION" && a.detail.Threshold?
        && a.detail.parameter in rules && a.severity == rules[a.detail.parameter].severity
        && Evaluate(a.detail.value, rules[a.detail.parameter]) == Some(a.detail.violation)
        && (a.detail.parameter, Some(a.detail.value)) in data
        && a.detail.parameter in r.recent && r.recent[a.detail.parameter] == now
    decreases |data|
  {
    if |data| > 0 {
      var n := |data| - 1;
      EnvAlertsJustified(rules, recent, data[..n], now);
      assert data == data[..n] + [data[n]];
    }
  }

  /**
   * While a parameter is inside its cooldown, an environmental check raises no alert for it,
   * whatever the readings (a later reading of the same parameter included).
   */
  lemma {:induction false} EnvSilentWithinCooldown(rules: map<string, Rule>, recent: map<string, int>,
                                                   data: seq<(string, Option<real>)>, now: int, p: string)
    requires p in rules && rules[p].cooldownMinutes >= 0
    requires p in recent && now - recent[p] <= rules[p].cooldownMinutes * 60
    ensures var r := EnvScan(rules, recent, data, now);
      && p in r.recent && now - r.recent[p] <= rules[p].cooldownMinutes * 60
      && forall a :: a in r.alerts ==> a.detail.Threshold? && a.detail.parameter != p
    decreases |data|
  {
    if |data| > 0 {
      var n := |data| - 1;
      EnvSilentWithinCooldown(rules, recent, data[..n], now, p);
    }
  }

  /**
   * Repeating a check within the cooldown: once a parameter has alerted at `t1`, no check at a
   * time `t2` up to `t1` plus its cooldown alerts for it again.
   */
  lemma EnvRepeatSuppressed(rules: map<string, Rule>, recent: map<string, int>,
                            first: seq<(string, Option<real>)>, second: seq<(string, Option<real>)>,
                            t1: int, t2: int, p: string)
    requires p in rules && rules[p].cooldownMinutes >= 0
    requires exists a :: a in EnvScan(rules, recent, first, t1).alerts && a.detail.Threshold? && a.detail.parameter == p
    requires t1 <= t2 <= t1 + rules[p].cooldownMinutes * 60
    ensures forall a :: a in EnvScan(rules, EnvScan(rules, recent, first, t1).recent, second, t2).alerts ==>
      a.detail.Threshold? && a.detail.parameter != p
  {
    EnvAlertsJustified(rules, recent, first, t1);
    EnvSilentWithinCooldown(rules, EnvScan(rules, recent, first, t1).recent, second, t2, p);
  }

  // ---------------------------------------------------------------------------
  // Animal-health check
  // ---------------------------------------------------------------------------

  datatype Accel = Accel(x: real, y: real, z: real)

  /** The readings of one ear tag; None stands for a key missing from `health_data`. */
  datatype HealthData = HealthData(
    heartRate: Option<real>,
    spo2: Option<real>,
    temperature: Option<real>,
    accel: Option<Accel>)

  /** Activity magnitude under 0.3, stated on its square: sqrt(s) < 0.3 exactly when s < 0.09. */
  predicate ActivityLow(a: Accel)
  {
    a.x * a.x + a.y * a.y + a.z * a.z < 0.09
  }

  /** The cooldown keys of one device: `{device_id}_hr`, `_spo2`, `_temp` and `_activity`. */
  function HealthKeys(deviceId: string): set<string>
  {
    {deviceId + "_hr", deviceId + "_spo2", deviceId + "_temp", deviceId + "_activity"}
  }

  /** The heart-rate check, made only for a positive reading. */
  function HeartRateStep(rules: map<string, Rule>, recent: map<string, int>, d: string, h: HealthData, now: int): Step
  {
    if h.heartRate.Some? && h.heartRate.value > 0.0 then
      Consider(rules, recent, "heart_rate", d + "_hr", h.heartRate.value, "ANIMAL_HEART_RATE", d, now)
    else Step(None, recent)
  }

  /** The SpO2 check, made only for a positive reading. */
  function Spo2Step(rules: map<string, Rule>, recent: map<string, int>, d: string, h: HealthData, now: int): Step
  {
    if h.spo2.Some? && h.spo2.value > 0.0 then
      Consider(rules, recent, "spo2", d + "_spo2", h.spo2.value, "ANIMAL_OXYGEN_LEVEL", d, now)
    else Step(None, recent)
  }

  /** The body-temperature check, made whenever a reading is present. */
  function TemperatureStep(rules: map<string, Rule>, recent: map<string, int>, d: string, h: HealthData, now: int): Step
  {
    if h.temperature.Some? then
      Consider(rules, recent, "animal_temperature", d + "_temp", h.temperature.value, "ANIMAL_TEMPERATURE", d, now)
    else Step(None, recent)
  }

  /** The activity check: a fixed INFO alert with a 180-minute cooldown, independent of the rule table. */
  function ActivityStep(recent: map<string, int>, d: string, h: HealthData, now: int): Step
  {
    if h.accel.Some? && ActivityLow(h.accel.value) && CooldownPassed(recent, d + "_activity", 180, now) then
      Step(Some(Alert("LOW_ACTIVITY", d, "INFO", LowActivity)), recent[d + "_activity" := now])
    else Step(None, recent)
  }

  /** `check_animal_health_alerts`: heart rate and SpO2 only when positive, temperature always, then activity. */
  function HealthScan(rules: map<string, Rule>, recent: map<string, int>, deviceId: string, h: HealthData, now: int): Scan
  {
    var s1 := HeartRateStep(rules, recent, deviceId, h, now);
    var s2 := Spo2Step(rules, s1.recent, deviceId, h, now);
    var s3 := TemperatureStep(rules, s2.recent, deviceId, h, now);
    var s4 := ActivityStep(s3.recent, deviceId, h, now);
    Scan(AsSeq(s1.alert) + AsSeq(s2.alert) + AsSeq(s3.alert) + AsSeq(s4.alert), s4.recent)
  }

  /** Two keys differ when their prefixes differ under the same suffix, or their suffixes end differently. */
  lemma DistinctKeys(a: string, sa: string, b: string, sb: string)
    requires |sa| > 0 && |sb| > 0
    requires (a != b && sa == sb) || sa[|sa| - 1] != sb[|sb| - 1]
    ensures a + sa != b + sb
  {
    var x, y := a + sa, b + sb;
    if sa[|sa| - 1] != sb[|sb| - 1] {
      assert x[|x| - 1] == sa[|sa| - 1];
      assert y[|y| - 1] == sb[|sb| - 1];
    } else if |a| != |b| {
      assert |x| != |y|;
    } else {
      var i :| 0 <= i < |a| && a[i] != b[i];
      assert x[i] == a[i] && y[i] == b[i];
    }
  }

  /** The four cooldown keys of a device are pairwise different. */
  lemma HealthKeysDistinct(d: string)
    ensures d + "_hr" != d + "_spo2" && d + "_hr" != d + "_temp" && d + "_hr" != d + "_activity"
    ensures d + "_spo2" != d + "_temp" && d + "_spo2" != d + "_activity" && d + "_temp" != d + "_activity"
  {
    DistinctKeys(d, "_hr", d, "_spo2");
    DistinctKeys(d, "_hr", d, "_temp");
    DistinctKeys(d, "_hr", d, "_activity");
    DistinctKeys(d, "_spo2", d, "_temp");
    DistinctKeys(d, "_spo2", d, "_activity");
    DistinctKeys(d, "_temp", d, "_activity");
  }

  /** Different devices never share a cooldown key. */
  lemma HealthKeysDisjoint(d1: string, d2: string)
    requires d1 != d2
    ensures HealthKeys(d1) !! HealthKeys(d2)
  {
    var sfx := ["_hr", "_spo2", "_temp", "_activity"];
    forall i, j | 0 <= i < 4 && 0 <= j < 4 ensures d1 + sfx[i] != d2 + sfx[j] {
      DistinctKeys(d1, sfx[i], d2, sfx[j]);
    }
    assert HealthKeys(d1) == {d1 + sfx[0], d1 + sfx[1], d1 + sfx[2], d1 + sfx[3]};
    assert HealthKeys(d2) == {d2 + sfx[0], d2 + sfx[1], d2 + sfx[2], d2 + sfx[3]};
  }

  /** A step that can write only `key` leaves every other entry of the cooldown map as it was. */
  ghost predicate SameOutside(before: map<string, int>, after: map<string, int>, keys: set<string>)
  {
    forall k :: k !in keys ==> (k in after <==> k in before) && (k in before ==> after[k] == before[k])
  }

  /**
   * An animal-health check writes only its own device's keys, so checking one device never
   * changes (and so never suppresses) another device's cooldowns.
   */
  lemma HealthTouchesOnlyOwnKeys(rules: map<string, Rule>, recent: map<string, int>, d: string, h: HealthData, now: int, other: string)
    requires other != d
    ensures SameOutside(recent, HealthScan(rules, recent, d, h, now).recent, HealthKeys(d))
    ensures forall k :: k in HealthKeys(other) ==>
      var after := HealthScan(rules, recent, d, h, now).recent;
      (k in after <==> k in recent) && (k in recent ==> after[k] == recent[k])
  {
    HealthKeysDisjoint(d, other);
  }

  /** A missing or non-positive heart rate is never checked. */
  lemma HeartRateNeedsPositiveReading(rules: map<string, Rule>, recent: map<string, int>, d: string, h: HealthData, now: int)
    requires h.heartRate.None? || h.heartRate.value <= 0.0
    ensures forall a :: a in HealthScan(rules, recent, d, h, now).alerts ==> a.alertType != "ANIMAL_HEART_RATE"
  {
  }

  /**
   * Temperature is checked whatever the other readings are: a violating temperature whose
   * `_temp` key is out of cooldown always yields an ANIMAL_TEMPERATURE alert.
   */
  lemma TemperatureAlwaysChecked(rules: map<string, Rule>, recent: map<string, int>, d: string, h: HealthData, now: int)
    requires h.temperature.Some? && "animal_temperature" in rules
    requires Evaluate(h.temperature.value, rules["animal_temperature"]).Some?
    requires CooldownPassed(recent, d + "_temp", rules["animal_temperature"].cooldownMinutes, now)
    ensures exists a :: a in HealthScan(rules, recent, d, h, now).alerts && a.alertType == "ANIMAL_TEMPERATURE"
  {
    HealthKeysDistinct(d);
    var s1 := HeartRateStep(rules, recent, d, h, now);
    var s2 := Spo2Step(rules, s1.recent, d, h, now);
    var s3 := TemperatureStep(rules, s2.recent, d, h, now);
    assert (d + "_temp" in s2.recent) == (d + "_temp" in recent);
    assert d + "_temp" in recent ==> s2.recent[d + "_temp"] == recent[d + "_temp"];
    assert s3.alert.Some? && s3.alert.value.alertType == "ANIMAL_TEMPERATURE";
    var all := HealthScan(rules, recent, d, h, now).alerts;
    assert all == AsSeq(s1.alert) + AsSeq(s2.alert) + AsSeq(s3.alert) + AsSeq(ActivityStep(s3.recent, d, h, now).alert);
    assert s3.alert.value in all;
  }

  // ---------------------------------------------------------------------------
  // System check
  // ---------------------------------------------------------------------------

  /** A reading taken from a decoded record: absent, present but not a number, or a number. */
  datatype Reading = Absent | NotNumeric | Numeric(x: real)

  datatype SystemData = SystemData(moisture: Reading, deviceId: Option<string>)

  /** The outcome of `check_system_alerts`: its alerts and cooldown map, or the TypeError it raises. */
  datatype SystemOutcome = Checked(scan: Scan) | Raised

  /**
   * `check_system_alerts`: the water-tank alert uses the single key "water_tank" for every
   * device and names the device given, by default SPRINKLER_SYSTEM. A reading that is not a
   * number raises as soon as the rule compares it.
   */
  function SystemScan(rules: map<string, Rule>, recent: map<string, int>, sys: SystemData, now: int): (r: SystemOutcome)
    ensures r.Raised? <==> sys.moisture.NotNumeric? && "moisture_level" in rules
                            && (ChecksLow(rules["moisture_level"]) || ChecksHigh(rules["moisture_level"]))
    ensures r.Checked? ==> forall a :: a in r.scan.alerts ==>
      a.alertType == "LOW_WATER_TANK" && a.deviceId == sys.deviceId.GetOr("SPRINKLER_SYSTEM")
    ensures r.Checked? ==> SameOutside(recent, r.scan.recent, {"water_tank"})
  {
    if sys.moisture.Absent? || "moisture_level" !in rules then Checked(Scan([], recent))
    else if sys.moisture.NotNumeric? then
      var rule := rules["moisture_level"];
      if rule.condition == "min" && rule.thresholdMin.Some? then Raised
      else if rule.condition == "max" && rule.thresholdMax.Some? then Raised
      else if rule.condition == "range" && (rule.thresholdMin.Some? || rule.thresholdMax.Some?) then Raised
      else Checked(Scan([], recent))
    else
      var s := Consider(rules, recent, "moisture_level", "water_tank", sys.moisture.x, "LOW_WATER_TANK",
                        sys.deviceId.GetOr("SPRINKLER_SYSTEM"), now);
      Checked(Scan(AsSeq(s.alert), s.recent))
  }

  /**
   * The water-tank cooldown is shared: after any device's tank alert at `t1`, no device's tank
   * alert fires at a time `t2` up to `t1` plus the cooldown.
   */
  lemma WaterTankCooldownShared(rules: map<string, Rule>, recent: map<string, int>, a: SystemData, b: SystemData, t1: int, t2: int)
    requires "moisture_level" in rules && rules["moisture_level"].cooldownMinutes >= 0
    requires SystemScan(rules, recent, a, t1).Checked? && |SystemScan(rules, recent, a, t1).scan.alerts| > 0
    requires t1 <= t2 <= t1 + rules["moisture_level"].cooldownMinutes * 60
    ensures var after := SystemScan(rules, recent, a, t1).scan.recent;
      SystemScan(rules, after, b, t2).Checked? ==> SystemScan(rules, after, b, t2).scan.alerts == []
  {
  }

  // ---------------------------------------------------------------------------
  // The manager object
  // ---------------------------------------------------------------------------

  /** `AlertManager`: its rule table, fixed at construction, and the cooldown map it updates. */
  class AlertManager {
    const rules: map<string, Rule>
    var recentAlerts: map<string, int>

    constructor (config: seq<(string, RuleConfig)>)
      ensures forall p :: p in rules <==> p in DefaultRules() || Configured(config, p)
      ensures forall p :: Configured(config, p) ==> rules[p] == RuleFromConfig(p, LastConfig(config, p))
      ensures forall p :: !Configured(config, p) && p in DefaultRules() ==> rules[p] == DefaultRules()[p]
      ensures recentAlerts == map[]
    {
      var loaded := LoadAlertRules(config);
      rules := loaded;
      recentAlerts := map[];
    }

    /** `_record_alert_time`: sets the time of `key` and of no other key. */
    method RecordAlertTime(key: string, now: int)
      modifies this
      ensures recentAlerts == old(recentAlerts)[key := now]
    {
      recentAlerts := recentAlerts[key := now];
    }

    /** One rule check against the current cooldown map (see Consider). */
    method TryAlert(ruleName: string, key: string, value: real, alertType: string, deviceId: string, now: int)
      returns (alert: Option<Alert>)
      modifies this
      ensures Step(alert, recentAlerts) == Consider(rules, old(recentAlerts), ruleName, key, value, alertType, deviceId, now)
    {
      alert := None;
      if ruleName in rules {
        var rule := rules[ruleName];
        var violation := Evaluate(value, rule);
        if violation.Some? && CooldownPassed(recentAlerts, key, rule.cooldownMinutes, now) {
          alert := Some(Alert(alertType, deviceId, rule.severity, Threshold(ruleName, violation.value, value)));
          RecordAlertTime(key, now);
        }
      }
    }

    /** `check_environmental_alerts`: readings that are None or have no rule are skipped. */
    method CheckEnvironmentalAlerts(sensorData: seq<(string, Option<real>)>, now: int) returns (alerts: seq<Alert>)
      modifies this
      ensures Scan(alerts, recentAlerts) == EnvScan(rules, old(recentAlerts), sensorData, now)
    {
      alerts := [];
      for i := 0 to |sensorData|
        invariant Scan(alerts, recentAlerts) == EnvScan(rules, old(recentAlerts), sensorData[..i], now)
      {
        assert sensorData[..i + 1][..i] == sensorData[..i];
        var (param, value) := sensorData[i];
        if value.None? || param !in rules {
          continue;
        }
        var alert := TryAlert(param, param, value.value, "ENVIRONMENTAL_THRESHOLD", "BOM_STATION", now);
        alerts := alerts + AsSeq(alert);
      }
      assert sensorData[..|sensorData|] == sensorData;
    }

    /** The heart-rate block of `check_animal_health_alerts`. */
    method CheckHeartRate(deviceId: string, h: HealthData, now: int) returns (alert: Option<Alert>)
      modifies this
      ensures Step(alert, recentAlerts) == HeartRateStep(rules, old(recentAlerts), deviceId, h, now)
    {
      alert := None;
      if h.heartRate.Some? && h.heartRate.value > 0.0 {
        alert := TryAlert("heart_rate", deviceId + "_hr", h.heartRate.value, "ANIMAL_HEART_RATE", deviceId, now);
      }
    }

    /** The SpO2 block of `check_animal_health_alerts`. */
    method CheckSpo2(deviceId: string, h: HealthData, now: int) returns (alert: Option<Alert>)
      modifies this
      ensures Step(alert, recentAlerts) == Spo2Step(rules, old(recentAlerts), deviceId, h, now)
    {
      alert := None;
      if h.spo2.Some? && h.spo2.value > 0.0 {
        alert := TryAlert("spo2", deviceId + "_spo2", h.spo2.value, "ANIMAL_OXYGEN_LEVEL", deviceId, now);
      }
    }

    /** The temperature block of `check_animal_health_alerts`. */
    method CheckTemperature(deviceId: string, h: HealthData, now: int) returns (alert: Option<Alert>)
      modifies this
      ensures Step(alert, recentAlerts) == TemperatureStep(rules, old(recentAlerts), deviceId, h, now)
    {
      alert := None;
      if h.temperature.Some? {
        alert := TryAlert("animal_temperature", deviceId + "_temp", h.temperature.value, "ANIMAL_TEMPERATURE", deviceId, now);
      }
    }

    /** The activity block of `check_animal_health_alerts`, with its fixed 180-minute cooldown. */
    method CheckActivity(deviceId: string, h: HealthData, now: int) returns (alert: Option<Alert>)
      modifies this
      ensures Step(alert, recentAlerts) == ActivityStep(old(recentAlerts), deviceId, h, now)
    {
      alert := None;
      if h.accel.Some? && ActivityLow(h.accel.value) && CooldownPassed(recentAlerts, deviceId + "_activity", 180, now) {
        alert := Some(Alert("LOW_ACTIVITY", deviceId, "INFO", LowActivity));
        RecordAlertTime(deviceId + "_activity", now);
      }
    }

    /** `check_animal_health_alerts`. */
    method CheckAnimalHealthAlerts(deviceId: string, h: HealthData, now: int) returns (alerts: seq<Alert>)
      modifies this
      ensures Scan(alerts, recentAlerts) == HealthScan(rules, old(recentAlerts), deviceId, h, now)
    {
      var hr := CheckHeartRate(deviceId, h, now);
      var spo2 := CheckSpo2(deviceId, h, now);
      var temp := CheckTemperature(deviceId, h, now);
      var activity := CheckActivity(deviceId, h, now);
      alerts := AsSeq(hr) + AsSeq(spo2) + AsSeq(temp) + AsSeq(activity);
    }

    /** `check_system_alerts`; `raised` reports the TypeError a non-numeric reading causes. */
    method CheckSystemAlerts(sys: SystemData, now: int) returns (alerts: seq<Alert>, raised: bool)
      modifies this
      ensures raised ==> SystemScan(rules, old(recentAlerts), sys, now) == Raised && recentAlerts == old(recentAlerts)
      ensures !raised ==> SystemScan(rules, old(recentAlerts), sys, now) == Checked(Scan(alerts, recentAlerts))
    {
      alerts, raised := [], false;
      if sys.moisture.Absent? || "moisture_level" !in rules {
        return;
      }
      var rule := rules["moisture_level"];
      match sys.moisture {
        case NotNumeric =>
          raised := ChecksLow(rule) || ChecksHigh(rule);
        case Numeric(x) =>
          var a := TryAlert("moisture_level", "water_tank", x, "LOW_WATER_TANK", sys.deviceId.GetOr("SPRINKLER_SYSTEM"), now);
          alerts := AsSeq(a);
      }
    }
  }
}
