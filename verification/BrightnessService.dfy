/** The brightness service (brightness_service.cpp): every request and timer as a step on its state. */
module BrightnessServices {
  import opened Common
  import opened Tasks
  import opened Points
  import opened Arithmetic
  import opened LevelMaps
  import opened LightLuxManagers
  import opened CalculationManagers
  import opened BrightnessDimmings

  const DEFAULT_BRIGHTNESS_LEVEL: uint32 := 50
  const DEFAULT_ANIMATING_DURATION: uint32 := 500
  const DEFAULT_BRIGHTEN_DURATION: uint32 := 2000
  const DEFAULT_DARKEN_DURATION: uint32 := 5000
  const DEFAULT_MAX_BRIGHTNESS_DURATION: uint32 := 3000

  type Discount = d: real | 0.01 <= d <= 1.0 witness 1.0

  /** System parameters and configuration, fixed while the service runs. */
  datatype Config = Config(minLimit: uint32, minParam: uint32, maxParam: uint32,
                           sleepBrightness: uint32, sleepReduction: uint32, sleepDarkenTime: uint32,
                           supportLightSensor: bool, mode: Mode, weights: Alphas, points: seq<PointXy>)

  /** `setting` is the persisted setting, `device` what the display was last told. */
  datatype ServiceState = ServiceState(
    display: DisplayState, maxLimit: uint32, setting: uint32, device: uint32,
    overridden: bool, boosted: bool, sleep: bool, discount: Discount,
    cached: uint32, overriddenValue: uint32, before: uint32,
    level: uint32, target: uint32, current: uint32, displayOnFirst: bool,
    autoEnabled: bool, sensorEnabled: bool,
    boostTasks: Queue, boostDurations: map<nat, uint32>,
    dim: DimState, lux: LuxState, offset: OffsetState)

  /** The state after a request, and what the request returns. */
  datatype Reply = Reply(next: ServiceState, success: bool)

  // ---------- pure computations ----------

  predicate IsScreenOnState(d: DisplayState) {
    d == On || d == Dim
  }

  function SafeBrightness(minLimit: uint32, maxLimit: uint32, value: uint32): uint32 {
    Max(Min(value, maxLimit), minLimit)
  }

  function Share(discount: real, level: real): real {
    level * discount
  }

  lemma ShareAtMost(discount: real, level: real)
    requires 0.0 <= discount <= 1.0 && 0.0 <= level
    ensures 0.0 <= Share(discount, level) <= level
  {
    ProductStaysBelow(level, 0.0, discount);
  }

  lemma ShareRises(discount: real, a: real, b: real)
    requires 0.0 <= discount && a <= b
    ensures Share(discount, a) <= Share(discount, b)
  {
    ProductRises(a, b, discount);
  }

  /** The discounted level, without its fraction. */
  function DiscountedLevel(discount: Discount, safe: uint32): (r: uint32)
    ensures r <= safe
  {
    var x := Share(discount, safe as real);
    ShareAtMost(discount, safe as real);
    FloorsInOrder(0, x.Floor, 0.0, x);
    FloorsInOrder(x.Floor, safe, x, safe as real);
    x.Floor
  }

  function DeviceLevel(minParam: uint32, discount: Discount, safe: uint32): (r: uint32)
  {
    ToDeviceInRange(SHIPPED, minParam, DiscountedLevel(discount, safe));
    ToDevice(SHIPPED, minParam, DiscountedLevel(discount, safe))
  }

  function SettingLevel(level: uint32): (r: uint32)
    ensures 1 <= r <= MAX_DEFAULT_LEVEL
  {
    RescaledInRange(ClampTo(level, MAX_MAPPING_LEVEL), MAX_MAPPING_LEVEL, MAX_DEFAULT_LEVEL);
    ToSetting(SHIPPED, level)
  }

  /** A float cast to `uint32_t`; outside that range C++ leaves the result open, here it saturates. */
  function ToUInt32(r: real): uint32 {
    if r < 0.0 then 0 else if r.Floor >= TWO_TO_THE_32 then TWO_TO_THE_32 - 1 else r.Floor
  }

  function SleepLevel(c: Config, setting: uint32): uint32 {
    Max(Min(Max(setting, c.sleepReduction) - c.sleepReduction, c.sleepBrightness), MIN_LEVEL)
  }

  function SafeDiscount(discount: real): Discount {
    if discount > 1.0 then 1.0 else if discount < 0.01 then 0.01 else discount
  }

  /** A factor of the full range, rounded; zero and negative values mean the lower limit. */
  function NewMaxLimit(c: Config, value: real): uint32 {
    if value < 0.0 || ToUInt32(value * 255.0 + 0.5) == 0 then c.minLimit else ToUInt32(value * 255.0 + 0.5)
  }

  // ---------- helpers of the requests ----------

  ghost predicate CanSetBrightness(s: ServiceState) {
    IsScreenOnState(s.display) && !s.overridden && !s.boosted
  }

  ghost function SettingWritten(s: ServiceState, value: uint32): ServiceState {
    s.(setting := value, level := value, cached := value)
  }

  ghost function DimStopped(s: ServiceState): ServiceState {
    if s.dim.dimming then s.(dim := Stopped(s.dim)) else s
  }

  /** `ok` says whether the display accepts the new level. */
  ghost function Updated(c: Config, s: ServiceState, value: uint32, duration: uint32, updateSetting: bool, ok: bool)
    : Reply
  {
    var safe := SafeBrightness(c.minLimit, s.maxLimit, value);
    var level := DeviceLevel(c.minParam, s.discount, safe);
    var t := DimStopped(s);
    if duration > 0 then Reply(t.(dim := Started(t.dim, t.setting, level, duration)), true)
    else if !ok then Reply(t, false)
    else if updateSetting then Reply(SettingWritten(t.(device := level), safe), true)
    else Reply(t.(device := level), true)
  }

  ghost function ScreenOnBrightness(c: Config, s: ServiceState): uint32 {
    if s.boosted then c.maxParam else if s.overridden then s.overriddenValue else s.setting
  }

  ghost function SensorActivated(s: ServiceState): ServiceState {
    if s.autoEnabled && !s.sensorEnabled then s.(sensorEnabled := true) else s
  }

  ghost function SensorDeactivated(s: ServiceState): ServiceState {
    if s.autoEnabled && s.sensorEnabled then s.(sensorEnabled := false, lux := Cleared(s.lux)) else s
  }

  // ---------- requests ----------

  ghost function Restored(c: Config, s: ServiceState, duration: uint32, ok: bool): Reply {
    if !s.overridden then Reply(s, false)
    else Updated(c, s.(overridden := false), s.before, duration, true, ok)
  }

  ghost function Overrode(c: Config, s: ServiceState, value: uint32, duration: uint32, ok: bool): Reply {
    if !IsScreenOnState(s.display) || s.boosted then Reply(s, false)
    else Updated(c, s.(overridden := true, overriddenValue := value, before := s.setting), value, duration, false, ok)
  }

  ghost function FellAsleep(c: Config, s: ServiceState, ok: bool): ServiceState {
    if s.setting <= MIN_LEVEL then s
    else Overrode(c, s.(sleep := true), SleepLevel(c, s.setting), c.sleepDarkenTime, ok).next
  }

  ghost function SensorsSwitched(c: Config, s: ServiceState, enable: bool): ServiceState {
    if !c.supportLightSensor then s else if enable then SensorActivated(s) else SensorDeactivated(s)
  }

  ghost function SensorsFollow(c: Config, s: ServiceState): ServiceState {
    SensorsSwitched(c, s, IsScreenOnState(s.display) && s.autoEnabled)
  }

  ghost function TurnedOff(s: ServiceState): ServiceState {
    DimStopped((if s.sleep then s.(overridden := false, sleep := false) else s).(target := 0))
  }

  ghost function TurnedOn(c: Config, s: ServiceState, ok: bool): ServiceState {
    var t := s.(displayOnFirst := true);
    if t.sleep then Restored(c, t, 0, ok).next.(sleep := false) else t
  }

  ghost function DisplaySet(c: Config, s: ServiceState, state: DisplayState, ok: bool): ServiceState {
    var t := SensorsFollow(c, s.(display := state));
    match state
    case Off => TurnedOff(t)
    case Dim => FellAsleep(c, t, ok)
    case On => TurnedOn(c, t, ok)
    case _ => t
  }

  ghost function AutoAdjusted(c: Config, s: ServiceState, enable: bool): Reply {
    if !c.supportLightSensor then Reply(s, false)
    else if enable then Reply(if s.autoEnabled then s else SensorActivated(s.(autoEnabled := true)), true)
    else Reply(if s.autoEnabled then SensorDeactivated(s).(autoEnabled := false) else s, true)
  }

  /** While the light sensor drives the brightness, an instant change is taken as the user's offset. */
  ghost function UserPlaced(c: Config, s: ServiceState, value: uint32, duration: uint32): ServiceState {
    s.(overridden := false,
       offset := if duration == 0 && s.autoEnabled && s.sensorEnabled
                 then Placed(s.offset, c.points, value as real, Truncate(s.lux.filtered) as real)
                 else s.offset,
       target := value, current := value)
  }

  ghost function BrightnessSet(c: Config, s: ServiceState, value: uint32, duration: uint32, continuous: bool, ok: bool)
    : Reply
  {
    if !s.overridden && !CanSetBrightness(s) then Reply(s.(cached := value), false)
    else Updated(c, UserPlaced(c, s, value, duration), value, duration, !continuous, ok)
  }

  ghost function Discounted(c: Config, s: ServiceState, discount: real, duration: uint32, ok: bool): Reply {
    if !IsScreenOnState(s.display) then Reply(s, false)
    else
      var t := s.(discount := SafeDiscount(discount));
      Updated(c, t, ScreenOnBrightness(c, t), duration, false, ok)
  }

  /** Scheduling the end of a boost replaces the end scheduled before. */
  ghost function BoostEndScheduled(s: ServiceState, duration: uint32): ServiceState {
    var q := Submitted(Cancelled(s.boostTasks));
    s.(boostTasks := q, boostDurations := s.boostDurations[q.handle.value := duration])
  }

  ghost function BoostStarted(c: Config, s: ServiceState, duration: uint32, ok: bool): Reply {
    if !IsScreenOnState(s.display) || s.overridden then Reply(s, false)
    else if s.boosted then Reply(BoostEndScheduled(s, duration), true)
    else
      var r := Updated(c, s.(boosted := true), c.maxParam, duration, false, ok);
      Reply(BoostEndScheduled(r.next, duration), r.success)
  }

  ghost function BoostCancelled(c: Config, s: ServiceState, duration: uint32, ok: bool): Reply {
    if !s.boosted then Reply(s, false)
    else Updated(c, s.(boosted := false, boostTasks := Cancelled(s.boostTasks)), s.cached, duration, true, ok)
  }

  ghost function BoostTimedOut(c: Config, s: ServiceState, task: nat, ok: bool): ServiceState
    requires task in s.boostDurations
  {
    BoostCancelled(c, s.(boostTasks := Fired(s.boostTasks, task)), s.boostDurations[task], ok).next
  }

  ghost function DimReported(s: ServiceState, value: uint32, ok: bool): ServiceState {
    if !ok then s
    else if s.sleep then s.(device := value)
    else SettingWritten(s.(device := value), SettingLevel(value))
  }

  /** A dimming task fires; the reported value goes to the display and, outside sleep, to the setting. */
  ghost function DimFired(s: ServiceState, task: nat, ok: bool): ServiceState {
    var t := Ticked(s.dim, task);
    if t.changed.None? then s.(dim := t.next) else DimReported(s.(dim := t.next), t.changed.value, ok)
  }

  ghost function LuxDuration(s: ServiceState, level: uint32, first: bool): uint32 {
    if first then if s.displayOnFirst then 0 else DEFAULT_ANIMATING_DURATION
    else if level < s.level then DEFAULT_DARKEN_DURATION else DEFAULT_BRIGHTEN_DURATION
  }

  ghost function AutoLevel(c: Config, s: ServiceState, lux: real): uint32 {
    ToUInt32(LevelAt(s.offset, c.weights, c.points, lux) / MAX_DEFAULT_BRIGHTNESS * 255.0)
  }

  ghost function LevelAdopted(s: ServiceState, level: uint32, first: bool): ServiceState {
    s.(level := level, current := level, target := level, displayOnFirst := s.displayOnFirst && !first)
  }

  ghost function LevelFollowed(c: Config, s: ServiceState, lux: real, first: bool, ok: bool): ServiceState {
    var level := AutoLevel(c, s, lux);
    var t := s.(offset := Evaluated(s.offset, c.weights, c.points, lux));
    if level == t.level && !first then t
    else Updated(c, LevelAdopted(t, level, first), level, LuxDuration(t, level, first), true, ok).next
  }

  ghost function LuxProcessed(c: Config, s: ServiceState, now: int, lux: real, ok: bool): ServiceState {
    if !CanSetBrightness(s) then s
    else
      var o := Reading(s.lux, c.mode, now, lux);
      var t := s.(lux := o.next);
      if o.updated then LevelFollowed(c, t, lux, o.next.isFirstLux, ok) else t
  }

  ghost function MaxSet(c: Config, s: ServiceState, value: real, ok: bool): Reply {
    var limit := NewMaxLimit(c, value);
    if limit == s.maxLimit then Reply(s, true)
    else
      var t := s.(maxLimit := Min(limit, MAX_DEFAULT_LEVEL));
      if t.maxLimit < t.setting then Updated(c, t, t.maxLimit, DEFAULT_MAX_BRIGHTNESS_DURATION, true, ok)
      else if t.current == 0 then Reply(t, true)
      else Updated(c, t, t.current, DEFAULT_MAX_BRIGHTNESS_DURATION, true, ok)
  }

  ghost function OffsetCleared(c: Config, s: ServiceState): ServiceState {
    DimStopped(s).(target := 0, offset := Placed(s.offset, c.points, 0.0, Truncate(s.lux.filtered) as real))
  }

  class BrightnessService {
    const config: Config
    const dimming: BrightnessDimming
    const lightLux: LightLuxManager
    const calculation: BrightnessCalculationManager

    var state: DisplayState
    var brightnessValueMax: uint32
    var settingBrightness: uint32
    var deviceBrightness: uint32
    var isBrightnessOverridden: bool
    var isBrightnessBoosted: bool
    var isSleepStatus: bool
    var discount: Discount
    var cachedSettingBrightness: uint32
    var overriddenBrightness: uint32
    var beforeOverriddenBrightness: uint32
    var brightnessLevel: uint32
    var brightnessTarget: uint32
    var currentBrightness: uint32
    var isDisplayOnWhenFirstLuxReport: bool
    var isAutoBrightnessEnabled: bool
    var isLightSensorEnabled: bool
    var boostTasks: Queue
    var boostDurations: map<nat, uint32>
    ghost var Repr: set<object>

    ghost predicate Valid()
      reads this, Repr
      ensures Valid() ==> this in Repr
    {
      && this in Repr && dimming in Repr && calculation in Repr && lightLux in Repr
      && lightLux.Repr <= Repr && lightLux.Valid()
      && {this, dimming as object, calculation as object} !! lightLux.Repr
      && lightLux.CurrentMode() == config.mode
      && calculation.weights == config.weights && calculation.curve.points == config.points
    }

    ghost function State(): ServiceState
      reads this, Repr
      requires Valid()
    {
      ServiceState(state, brightnessValueMax, settingBrightness, deviceBrightness,
                   isBrightnessOverridden, isBrightnessBoosted, isSleepStatus, discount,
                   cachedSettingBrightness, overriddenBrightness, beforeOverriddenBrightness,
                   brightnessLevel, brightnessTarget, currentBrightness, isDisplayOnWhenFirstLuxReport,
                   isAutoBrightnessEnabled, isLightSensorEnabled, boostTasks, boostDurations,
                   dimming.State(), lightLux.State(), calculation.State())
    }

    constructor (config: Config, modes: map<SceneMode, Mode>, display: DisplayState, setting: uint32, device: uint32)
      requires DefaultMode in modes && config.mode == modes[DefaultMode]
      ensures Valid() && fresh(Repr) && this.config == config
      ensures State() == Initial(display, setting, device)
    {
      this.config := config;
      var parts := new BrightnessDimming();
      var manager := new LightLuxManager(modes);
      var calculator := new BrightnessCalculationManager(config.weights, config.points);
      dimming, lightLux, calculation := parts, manager, calculator;
      state, brightnessValueMax, settingBrightness, deviceBrightness := display, MAX_DEFAULT_LEVEL, setting, device;
      isBrightnessOverridden, isBrightnessBoosted, isSleepStatus, discount := false, false, false, 1.0;
      cachedSettingBrightness, overriddenBrightness, beforeOverriddenBrightness :=
        DEFAULT_BRIGHTNESS_LEVEL, DEFAULT_BRIGHTNESS_LEVEL, DEFAULT_BRIGHTNESS_LEVEL;
      brightnessLevel, brightnessTarget, currentBrightness := 0, 0, DEFAULT_BRIGHTNESS_LEVEL;
      isDisplayOnWhenFirstLuxReport, isAutoBrightnessEnabled, isLightSensorEnabled := false, false, false;
      boostTasks, boostDurations := NO_TASKS, map[];
      Repr := {this, parts as object, calculator as object} + manager.Repr;
    }

    method SetSettingBrightness(value: uint32)
      requires Valid()
      modifies this`settingBrightness, this`brightnessLevel, this`cachedSettingBrightness
      ensures Valid() && State() == SettingWritten(old(State()), value)
    {
      settingBrightness := value;
      brightnessLevel := value;
      cachedSettingBrightness := value;
    }

    method StopAnyDimming()
      requires Valid()
      modifies dimming
      ensures Valid() && State() == DimStopped(old(State()))
    {
      if dimming.IsDimming() {
        dimming.StopDimming();
      }
    }

    /** `ok` is the answer of the display manager; the submitted setting write runs at once. */
    method UpdateBrightness(value: uint32, gradualDuration: uint32, updateSetting: bool, ok: bool)
      returns (success: bool)
      requires Valid()
      modifies this, dimming
      ensures Valid() && Repr == old(Repr)
      ensures Reply(State(), success) == Updated(config, old(State()), value, gradualDuration, updateSetting, ok)
    {
      var safeBrightness := SafeBrightness(config.minLimit, brightnessValueMax, value);
      StopAnyDimming();
      var brightness := DeviceLevel(config.minParam, discount, safeBrightness);
      if gradualDuration > 0 {
        dimming.StartDimming(settingBrightness, brightness, gradualDuration);
        return true;
      }
      if ok {
        deviceBrightness := brightness;
        if updateSetting {
          SetSettingBrightness(safeBrightness);
        }
      }
      return ok;
    }

    method EnterOverride(value: uint32)
      requires Valid()
      modifies this`isBrightnessOverridden, this`overriddenBrightness, this`beforeOverriddenBrightness
      ensures Valid()
      ensures State() == old(State()).(overridden := true, overriddenValue := value, before := old(State()).setting)
    {
      if !isBrightnessOverridden {
        isBrightnessOverridden := true;
      }
      overriddenBrightness := value;
      beforeOverriddenBrightness := settingBrightness;
    }

    method LeaveOverride()
      requires Valid()
      modifies this`isBrightnessOverridden
      ensures Valid() && State() == old(State()).(overridden := false)
    {
      isBrightnessOverridden := false;
    }

    method OverrideBrightness(value: uint32, gradualDuration: uint32, ok: bool) returns (success: bool)
      requires Valid()
      modifies this, dimming
      ensures Valid() && Repr == old(Repr)
      ensures Reply(State(), success) == Overrode(config, old(State()), value, gradualDuration, ok)
    {
      if !IsScreenOnState(state) || isBrightnessBoosted {
        return false;
      }
      EnterOverride(value);
      success := UpdateBrightness(value, gradualDuration, false, ok);
    }

    method RestoreBrightness(gradualDuration: uint32, ok: bool) returns (success: bool)
      requires Valid()
      modifies this, dimming
      ensures Valid() && Repr == old(Repr)
      ensures Reply(State(), success) == Restored(config, old(State()), gradualDuration, ok)
    {
      if !isBrightnessOverridden {
        return false;
      }
      LeaveOverride();
      success := UpdateBrightness(beforeOverriddenBrightness, gradualDuration, true, ok);
    }

    method SetSleepBrightness(ok: bool)
      requires Valid()
      modifies this, dimming
      ensures Valid() && Repr == old(Repr)
      ensures State() == FellAsleep(config, old(State()), ok)
    {
      var value := settingBrightness;
      if value <= MIN_LEVEL {
        return;
      }
      if value < config.sleepReduction {
        value := config.sleepReduction;
      }
      var enterSleepBrightness := Max(Min(value - config.sleepReduction, config.sleepBrightness), MIN_LEVEL);
      isSleepStatus := true;
      var _ := OverrideBrightness(enterSleepBrightness, config.sleepDarkenTime, ok);
    }

    method ActivateAmbientSensor()
      requires Valid()
      modifies this
      ensures Valid() && Repr == old(Repr) && State() == SensorActivated(old(State()))
    {
      if !isAutoBrightnessEnabled || isLightSensorEnabled {
        return;
      }
      isLightSensorEnabled := true;
    }

    method ClearLuxData()
      requires Valid()
      modifies Repr
      ensures Valid() && fresh(Repr - old(Repr)) && State() == old(State()).(lux := Cleared(old(State()).lux))
    {
      lightLux.ClearLuxData();
      Repr := Repr + lightLux.Repr;
    }

    method DeactivateAmbientSensor()
      requires Valid()
      modifies Repr
      ensures Valid() && fresh(Repr - old(Repr)) && State() == SensorDeactivated(old(State()))
    {
      if !isAutoBrightnessEnabled || !isLightSensorEnabled {
        return;
      }
      isLightSensorEnabled := false;
      ClearLuxData();
    }

    method StateChangedSetAutoBrightness(enable: bool) returns (success: bool)
      requires Valid()
      modifies Repr
      ensures Valid() && fresh(Repr - old(Repr))
      ensures State() == SensorsSwitched(config, old(State()), enable) && success == config.supportLightSensor
    {
      if !config.supportLightSensor {
        return false;
      }
      if enable {
        if isLightSensorEnabled {
          return true;
        }
        ActivateAmbientSensor();
      } else {
        if !isLightSensorEnabled {
          return true;
        }
        DeactivateAmbientSensor();
      }
      return true;
    }

    method SetDisplayState(newState: DisplayState, ok: bool)
      requires Valid()
      modifies Repr
      ensures Valid() && fresh(Repr - old(Repr))
      ensures State() == DisplaySet(config, old(State()), newState, ok)
    {
      EnterState(newState);
      if newState == Off {
        GoOff();
      } else if newState == Dim {
        SetSleepBrightness(ok);
      } else if newState == On {
        GoOn(ok);
      }
    }

    method SetState(newState: DisplayState)
      requires Valid()
      modifies this`state
      ensures Valid() && State() == old(State()).(display := newState)
    {
      state := newState;
    }

    method EnterState(newState: DisplayState)
      requires Valid()
      modifies Repr
      ensures Valid() && fresh(Repr - old(Repr))
      ensures State() == SensorsFollow(config, old(State()).(display := newState))
    {
      SetState(newState);
      var isAutoMode := IsScreenOnState(newState) && isAutoBrightnessEnabled;
      var _ := StateChangedSetAutoBrightness(isAutoMode);
    }

    method GoOff()
      requires Valid()
      modifies this, dimming
      ensures Valid() && Repr == old(Repr) && State() == TurnedOff(old(State()))
    {
      if isSleepStatus {
        isBrightnessOverridden := false;
        isSleepStatus := false;
      }
      brightnessTarget := 0;
      StopAnyDimming();
    }

    method Wake(ok: bool)
      requires Valid()
      modifies this, dimming
      ensures Valid() && Repr == old(Repr)
      ensures State() == Restored(config, old(State()), 0, ok).next.(sleep := false)
    {
      var _ := RestoreBrightness(0, ok);
      isSleepStatus := false;
    }

    method GoOn(ok: bool)
      requires Valid()
      modifies this, dimming
      ensures Valid() && Repr == old(Repr) && State() == TurnedOn(config, old(State()), ok)
    {
      isDisplayOnWhenFirstLuxReport := true;
      if isSleepStatus {
        Wake(ok);
      }
    }

    method AutoAdjustBrightness(enable: bool) returns (success: bool)
      requires Valid()
      modifies Repr
      ensures Valid() && fresh(Repr - old(Repr))
      ensures Reply(State(), success) == AutoAdjusted(config, old(State()), enable)
    {
      if !config.supportLightSensor {
        return false;
      }
      if enable {
        if isAutoBrightnessEnabled {
          return true;
        }
        isAutoBrightnessEnabled := true;
        ActivateAmbientSensor();
      } else {
        if !isAutoBrightnessEnabled {
          return true;
        }
        DeactivateAmbientSensor();
        isAutoBrightnessEnabled := false;
      }
      return true;
    }

    method SetBrightness(value: uint32, gradualDuration: uint32, continuous: bool, ok: bool) returns (success: bool)
      requires Valid()
      modifies this, dimming, calculation
      ensures Valid() && Repr == old(Repr)
      ensures Reply(State(), success) ==
              BrightnessSet(config, old(State()), value, gradualDuration, continuous, ok)
    {
      if isBrightnessOverridden {
        LeaveOverride();
      } else if !(IsScreenOnState(state) && !isBrightnessOverridden && !isBrightnessBoosted) {
        cachedSettingBrightness := value;
        return false;
      }
      TakeUserLevel(value, gradualDuration);
      success := UpdateBrightness(value, gradualDuration, !continuous, ok);
    }

    method AimAt(level: uint32)
      requires Valid()
      modifies this`currentBrightness, this`brightnessTarget
      ensures Valid() && State() == old(State()).(current := level, target := level)
    {
      currentBrightness := level;
      brightnessTarget := level;
    }

    method TakeUserLevel(value: uint32, gradualDuration: uint32)
      requires Valid() && !isBrightnessOverridden
      modifies this, calculation
      ensures Valid() && Repr == old(Repr)
      ensures State() == UserPlaced(config, old(State()), value, gradualDuration)
    {
      if gradualDuration == 0 && isAutoBrightnessEnabled && isLightSensorEnabled {
        calculation.UpdateBrightnessOffset(value as real, lightLux.GetSmoothedLux());
      }
      AimAt(value);
    }

    method DiscountBrightness(factor: real, gradualDuration: uint32, ok: bool) returns (success: bool)
      requires Valid()
      modifies this, dimming
      ensures Valid() && Repr == old(Repr)
      ensures Reply(State(), success) == Discounted(config, old(State()), factor, gradualDuration, ok)
    {
      if !IsScreenOnState(state) {
        return false;
      }
      discount := SafeDiscount(factor);
      var screenOnBrightness := if isBrightnessBoosted then config.maxParam
                                else if isBrightnessOverridden then overriddenBrightness
                                else settingBrightness;
      success := UpdateBrightness(screenOnBrightness, gradualDuration, false, ok);
    }

    method BoostBrightness(gradualDuration: uint32, ok: bool) returns (success: bool)
      requires Valid()
      modifies this, dimming
      ensures Valid() && Repr == old(Repr)
      ensures Reply(State(), success) == BoostStarted(config, old(State()), gradualDuration, ok)
    {
      if !IsScreenOnState(state) || isBrightnessOverridden {
        return false;
      }
      success := true;
      if !isBrightnessBoosted {
        isBrightnessBoosted := true;
        success := UpdateBrightness(config.maxParam, gradualDuration, false, ok);
      }
      ScheduleBoostEnd(gradualDuration);
    }

    method ScheduleBoostEnd(gradualDuration: uint32)
      requires Valid()
      modifies this
      ensures Valid() && Repr == old(Repr) && State() == BoostEndScheduled(old(State()), gradualDuration)
    {
      boostTasks := Submitted(Cancelled(boostTasks));
      boostDurations := boostDurations[boostTasks.handle.value := gradualDuration];
    }

    method CancelBoostBrightness(gradualDuration: uint32, ok: bool) returns (success: bool)
      requires Valid()
      modifies this, dimming
      ensures Valid() && Repr == old(Repr)
      ensures Reply(State(), success) == BoostCancelled(config, old(State()), gradualDuration, ok)
    {
      if !isBrightnessBoosted {
        return false;
      }
      boostTasks := Cancelled(boostTasks);
      isBrightnessBoosted := false;
      success := UpdateBrightness(cachedSettingBrightness, gradualDuration, true, ok);
    }

    /** The delayed task of a boost runs. */
    method FireBoostEnd(task: nat, ok: bool)
      requires Valid() && task in boostTasks.pending && task in boostDurations
      modifies this, dimming
      ensures Valid() && Repr == old(Repr)
      ensures State() == BoostTimedOut(config, old(State()), task, ok)
    {
      boostTasks := Fired(boostTasks, task);
      var _ := CancelBoostBrightness(boostDurations[task], ok);
    }

    /** The callback a running animation reports to. */
    method OnChanged(value: uint32, ok: bool)
      requires Valid()
      modifies this
      ensures Valid() && Repr == old(Repr) && State() == DimReported(old(State()), value, ok)
    {
      if ok {
        deviceBrightness := value;
        if !isSleepStatus {
          SetSettingBrightness(SettingLevel(value));
        }
      }
    }

    method FireDimming(task: nat, ok: bool)
      requires Valid() && task in dimming.tasks.pending
      modifies this, dimming
      ensures Valid() && Repr == old(Repr) && State() == DimFired(old(State()), task, ok)
    {
      var changed := dimming.Fire(task);
      if changed.Some? {
        OnChanged(changed.value, ok);
      }
    }

    method UpdateCurrentBrightnessLevel(lux: real, isFastDuration: bool, ok: bool)
      requires Valid()
      modifies this, dimming, calculation
      ensures Valid() && Repr == old(Repr)
      ensures State() == LevelFollowed(config, old(State()), lux, isFastDuration, ok)
    {
      var level := GetBrightnessLevel(lux);
      if brightnessLevel != level || isFastDuration {
        SetBrightnessLevel(level, isFastDuration, ok);
      }
    }

    method SetBrightnessLevel(level: uint32, isFastDuration: bool, ok: bool)
      requires Valid()
      modifies this, dimming
      ensures Valid() && Repr == old(Repr)
      ensures State() == Updated(config, LevelAdopted(old(State()), level, isFastDuration), level,
                                 LuxDuration(old(State()), level, isFastDuration), true, ok).next
    {
      var duration := ChooseDuration(level, isFastDuration);
      AdoptLevel(level, isFastDuration);
      var _ := UpdateBrightness(level, duration, true, ok);
    }

    method GetBrightnessLevel(lux: real) returns (level: uint32)
      requires Valid()
      modifies calculation
      ensures Valid() && level == AutoLevel(config, old(State()), lux)
      ensures State() == old(State()).(offset := Evaluated(old(State()).offset, config.weights, config.points, lux))
    {
      var value := calculation.GetInterpolatedValue(lux);
      level := ToUInt32(value * 255.0);
    }

    method ChooseDuration(level: uint32, isFastDuration: bool) returns (duration: uint32)
      requires Valid()
      ensures duration == LuxDuration(State(), level, isFastDuration)
    {
      duration := DEFAULT_BRIGHTEN_DURATION;
      if level < brightnessLevel {
        duration := DEFAULT_DARKEN_DURATION;
      }
      if isFastDuration {
        duration := DEFAULT_ANIMATING_DURATION;
      }
      if isFastDuration && isDisplayOnWhenFirstLuxReport {
        duration := 0;
      }
    }

    method ReportFirst(isFastDuration: bool)
      requires Valid()
      modifies this`isDisplayOnWhenFirstLuxReport
      ensures Valid()
      ensures State() == old(State()).(displayOnFirst := old(State()).displayOnFirst && !isFastDuration)
    {
      if isFastDuration && isDisplayOnWhenFirstLuxReport {
        isDisplayOnWhenFirstLuxReport := false;
      }
    }

    method AdoptLevel(level: uint32, isFastDuration: bool)
      requires Valid()
      modifies this`isDisplayOnWhenFirstLuxReport, this`brightnessLevel, this`currentBrightness, this`brightnessTarget
      ensures Valid() && State() == LevelAdopted(old(State()), level, isFastDuration)
    {
      ReportFirst(isFastDuration);
      brightnessLevel := level;
      AimAt(level);
    }

    method NeedUpdate(lux: real, now: int) returns (updated: bool)
      requires Valid()
      modifies Repr
      ensures Valid() && fresh(Repr - old(Repr))
      ensures var o := Reading(old(State()).lux, config.mode, now, lux);
              State() == old(State()).(lux := o.next) && updated == o.updated
    {
      updated := lightLux.IsNeedUpdateBrightness(lux, now);
      Repr := Repr + lightLux.Repr;
    }

    method ProcessLightLux(lux: real, now: int, ok: bool)
      requires Valid()
      modifies Repr
      ensures Valid() && fresh(Repr - old(Repr))
      ensures State() == LuxProcessed(config, old(State()), now, lux, ok)
    {
      if !(IsScreenOnState(state) && !isBrightnessOverridden && !isBrightnessBoosted) {
        return;
      }
      var updated := NeedUpdate(lux, now);
      if updated {
        UpdateCurrentBrightnessLevel(lux, lightLux.isFirstLux, ok);
      }
    }

    method SetLimit(limit: uint32)
      requires Valid()
      modifies this`brightnessValueMax
      ensures Valid() && State() == old(State()).(maxLimit := limit)
    {
      brightnessValueMax := limit;
    }

    method SetMaxBrightness(value: real, ok: bool) returns (success: bool)
      requires Valid()
      modifies this, dimming
      ensures Valid() && Repr == old(Repr)
      ensures Reply(State(), success) == MaxSet(config, old(State()), value, ok)
    {
      var maxValue := ToUInt32(value * 255.0 + 0.5);
      if maxValue == 0 || value < 0.0 {
        maxValue := config.minLimit;
      }
      if maxValue == brightnessValueMax {
        return true;
      }
      SetLimit(if maxValue > MAX_DEFAULT_LEVEL then MAX_DEFAULT_LEVEL else maxValue);
      if brightnessValueMax < settingBrightness {
        success := UpdateBrightness(brightnessValueMax, DEFAULT_MAX_BRIGHTNESS_DURATION, true, ok);
        return;
      }
      if currentBrightness == 0 {
        return true;
      }
      success := UpdateBrightness(currentBrightness, DEFAULT_MAX_BRIGHTNESS_DURATION, true, ok);
    }

    method ClearOffset()
      requires Valid()
      modifies this, dimming, calculation
      ensures Valid() && Repr == old(Repr) && State() == OffsetCleared(config, old(State()))
    {
      StopAnyDimming();
      brightnessTarget := 0;
      calculation.UpdateBrightnessOffset(0.0, lightLux.GetSmoothedLux());
    }
  }

  ghost function Initial(display: DisplayState, setting: uint32, device: uint32): ServiceState {
    ServiceState(display, MAX_DEFAULT_LEVEL, setting, device, false, false, false, 1.0,
                 DEFAULT_BRIGHTNESS_LEVEL, DEFAULT_BRIGHTNESS_LEVEL, DEFAULT_BRIGHTNESS_LEVEL,
                 0, 0, DEFAULT_BRIGHTNESS_LEVEL, false, false, false, NO_TASKS, map[],
                 AT_REST, INITIAL, NO_OFFSET)
  }
}
