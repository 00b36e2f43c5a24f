/** The controller's configuration and the checks made on it when it is loaded. */
module Settings {
  import opened Prelude

  datatype Tuning = Tuning(
    kp: real,
    kiPerHour: real,
    kff: real,
    integralLimit: real,
    integralDtMax: real,
    ambientAlpha: real,
    internalAlpha: real,
    window: real,
    deadband: real,
    tick: real,
    heatMinOn: real,
    coolMinOn: real,
    reverseIdle: real,
    staleTimeout: real)

  datatype Config = Config(
    heatNode: int,
    coolNode: int,
    setpoint: real,
    ambientOffset: real,
    internalOffset: real,
    period: real,
    tuning: Tuning)

  datatype ConfigError =
    | BadPeriod
    | BadIntegralLimit
    | BadIntegralDtMax
    | BadAmbientAlpha
    | BadInternalAlpha
    | BadWindow
    | BadTick
    | BadDeadband
    | NegativeHeatMinOn
    | NegativeCoolMinOn
    | NegativeReverseIdle
    | NegativeStaleTimeout
    | HeatMinOnAboveWindow
    | CoolMinOnAboveWindow
    | StaleTimeoutBelowPeriod

  /** What every later proof may rely on. */
  predicate Valid(c: Config) {
    var t := c.tuning;
    && 0.0 < c.period <= t.staleTimeout
    && 0.0 <= t.integralLimit && 0.0 < t.integralDtMax
    && 0.0 < t.ambientAlpha <= 1.0 && 0.0 < t.internalAlpha <= 1.0
    && 0.0 < t.window && 0.0 < t.tick
    && 0.0 <= t.deadband < 1.0
    && 0.0 <= t.heatMinOn <= t.window && 0.0 <= t.coolMinOn <= t.window
    && 0.0 <= t.reverseIdle
  }

  /** The condition that an error complains about. */
  predicate Violates(c: Config, e: ConfigError) {
    var t := c.tuning;
    match e
    case BadPeriod => c.period <= 0.0
    case BadIntegralLimit => t.integralLimit < 0.0
    case BadIntegralDtMax => t.integralDtMax <= 0.0
    case BadAmbientAlpha => t.ambientAlpha <= 0.0 || 1.0 < t.ambientAlpha
    case BadInternalAlpha => t.internalAlpha <= 0.0 || 1.0 < t.internalAlpha
    case BadWindow => t.window <= 0.0
    case BadTick => t.tick <= 0.0
    case BadDeadband => t.deadband < 0.0 || 1.0 <= t.deadband
    case NegativeHeatMinOn => t.heatMinOn < 0.0
    case NegativeCoolMinOn => t.coolMinOn < 0.0
    case NegativeReverseIdle => t.reverseIdle < 0.0
    case NegativeStaleTimeout => t.staleTimeout < 0.0
    case HeatMinOnAboveWindow => t.window < t.heatMinOn
    case CoolMinOnAboveWindow => t.window < t.coolMinOn
    case StaleTimeoutBelowPeriod => t.staleTimeout < c.period
  }

  /** A configuration is valid exactly if it violates nothing. */
  lemma ValidIff(c: Config)
    ensures Valid(c) <==> forall e :: !Violates(c, e)
  {
    if forall e :: !Violates(c, e) {
      assert !Violates(c, BadPeriod) && !Violates(c, BadIntegralLimit) && !Violates(c, BadIntegralDtMax);
      assert !Violates(c, BadAmbientAlpha) && !Violates(c, BadInternalAlpha) && !Violates(c, BadWindow);
      assert !Violates(c, BadTick) && !Violates(c, BadDeadband) && !Violates(c, NegativeReverseIdle);
      assert !Violates(c, NegativeHeatMinOn) && !Violates(c, NegativeCoolMinOn);
      assert !Violates(c, HeatMinOnAboveWindow) && !Violates(c, CoolMinOnAboveWindow);
      assert !Violates(c, StaleTimeoutBelowPeriod);
    }
  }

  /** The checks in the order in which they are made; the first that fails is reported. */
  function Check(c: Config): (r: Option<ConfigError>)
    ensures r.None? <==> Valid(c)
    ensures r.Some? ==> Violates(c, r.value)
  {
    var t := c.tuning;
    if c.period <= 0.0 then Some(BadPeriod)
    else if t.integralLimit < 0.0 then Some(BadIntegralLimit)
    else if t.integralDtMax <= 0.0 then Some(BadIntegralDtMax)
    else if !(0.0 < t.ambientAlpha <= 1.0) then Some(BadAmbientAlpha)
    else if !(0.0 < t.internalAlpha <= 1.0) then Some(BadInternalAlpha)
    else if t.window <= 0.0 then Some(BadWindow)
    else if t.tick <= 0.0 then Some(BadTick)
    else if !(0.0 <= t.deadband < 1.0) then Some(BadDeadband)
    else if t.heatMinOn < 0.0 then Some(NegativeHeatMinOn)
    else if t.coolMinOn < 0.0 then Some(NegativeCoolMinOn)
    else if t.reverseIdle < 0.0 then Some(NegativeReverseIdle)
    else if t.staleTimeout < 0.0 then Some(NegativeStaleTimeout)
    else if t.heatMinOn > t.window then Some(HeatMinOnAboveWindow)
    else if t.coolMinOn > t.window then Some(CoolMinOnAboveWindow)
    else if t.staleTimeout < c.period then Some(StaleTimeoutBelowPeriod)
    else None
  }
}
