# Display brightness and multi-screen state, in Dafny

A model of the automatic brightness pipeline and of the multi-screen state protocol of the OpenHarmony
display manager, with proofs of what it guarantees over whole runs.

Each component of the system has one file: its state, specification functions on that state, and a class with the
component's own fields and methods, proved to do exactly what the specification functions say. Beside it
stand lemmas about the specification functions: invariants over all runs, round trips, refinements.

| file | what it holds |
|---|---|
| `Common`, `Arithmetic`, `Points`, `Tasks`, `Strides` | words and display states; product and quotient facts; piecewise-linear tables; delayed tasks; 32-bit stride arithmetic |
| `LightLuxBuffer`, `LuxHistory` | the growable ring buffer of timed light samples, and what its contents mean |
| `LightLuxManager`, `Smoothing`, `LuxProperties`, `LuxReading`, `LuxAdoption` | smoothing, thresholds and debouncing of readings; robustness, decision, spacing and adoption theorems; which samples a reading is judged by |
| `CalculationCurve`, `CalculationManager`, `OffsetProperties` | light to brightness, the user's offset, monotonicity and how long an offset is honoured |
| `BrightnessDimming`, `DimmingProperties`, `GradualAnimator` | the two animators as step machines over pending tasks |
| `LevelMaps` | user levels to device levels and back |
| `BrightnessService`, `ServiceInvariants`, `ServiceRuns` | the service as a state machine of 13 kinds of requests and timers, its invariants and round trips |
| `ServiceRequest` | what each request writes, shows and remembers, and when it is refused |
| `ServiceAnimations`, `RepeatedReading`, `AnimatedRequest`, `DeviceRange` | animations carried through to device and setting; light that asks again for the same level; overrides, discounts and boosts that are animated; the range of the device |
| `AutoBrightness`, `UserOffset` | the sensor pipeline and the user's offset inside the service, under all its requests |
| `CallbackRegistry`, `MultiScreen`, `MultiScreenService` | who hears of state changes; interleaved requests on any number of screens; the service that owns the controllers |

How the environment appears: clocks, sensor readings, the answers of the display and screen managers and the identity
of callers are parameters; the persisted setting is a field; delayed tasks are a set of pending tasks that may fire at
any time and that a cancel removes while they are pending. Tasks submitted without delay (the writes of the persisted
setting) happen at once, before the next request. Each request, timer and reading of the brightness service is one
atomic step. In the multi-screen machine every call a request makes is its own step, so requests on different screens
interleave arbitrarily while the screen lock keeps requests on one screen apart.

`float` and `double` are modelled by `real`. The comparisons against EPSILON and SMALL_VALUE are kept as written.

## Findings

Places where the code does something its surroundings do not suggest. Each is stated by a lemma named here.

- A light sample that a full buffer drops does not break the spacing of updates: raw and smoothed buffer drop together,
  so the value judged is the newest retained one (`LuxProperties.NewestIsJudged`, `LuxProperties.UpdatesAreSpaced`).
- A threshold table whose last value is 0 lets updates follow each other without any debounce
  (`LuxProperties.SpacedExactlyWhen` gives the exact condition; `LuxProperties.BrightRunIsUnspaced` the run).
- A change of light is adopted once it has lasted for its debounce time, if that fits the 10 s window
  (`LuxAdoption.HeldChangeIsAdopted`). A mode adopts every lasting change in a direction iff its debounce time fits the
  window, or the other direction has none, so that every reading is an update, or no lux of the sensor's range exceeds
  a threshold in force (`LuxAdoption.AdoptedExactlyWhen`).
- Left of its first point the curve answers with the default level 100, so it is monotone over all light exactly when it
  starts at zero or no lower than 100 (`CalculationCurves.MonotoneExactlyWhen`).
- A gradual update starts its animation at the setting, a number up to 255, and aims it at a device level, a number
  up to 223. Where the two numbers are equal, the request succeeds and nothing happens
  (`ServiceAnimations.EqualNumbersDropUpdate`; `ServiceAnimations.GradualUpdateArrives` and, for light readings,
  `ServiceAnimations.ReadingDrivesDevice` give the exact condition). Where the setting is above the device's range,
  the first step may leave that range
  (`DeviceRanges.FirstStepOvershoots`; `DeviceRanges.DeviceStaysInRange` says exactly which animations do, and
  `DeviceRanges.DeviceLeavesSteeply` that nothing else does).
- A gradual reading leaves the setting, and the level remembered, at what the device level maps back to. Where that is
  neither the level asked for nor the device level's own number, the next accepted reading that asks for the same level
  starts a new animation from the setting: with debounce times of two seconds, thresholds of one and a curve that is flat at 203, switching
  on the light in a dark room makes a device that shows 178 jump to 203 (`RepeatedReadings.SteadyLevelMakesDeviceJump`;
  `RepeatedReadings.RepeatedReading` says exactly when such an animation starts).
- A gradual override moves the persisted setting while it runs, and a second override then remembers the moved value
  (`AnimatedRequests.GradualOverrideMovesSetting`; `AnimatedRequests.GradualOverrideRestores` says which value comes
  back, and so when it is the original one).
- A gradual discount moves the persisted setting too, so that factor one does not bring it back
  (`AnimatedRequests.GradualDiscountSticks`; `AnimatedRequests.DiscountComesBack` gives the value that stays).
- A gradual boost does not defer requests as an instant one does: its ticks overwrite the cached value
  (`AnimatedRequests.GradualBoostForgets`; `AnimatedRequests.GradualBoostEnds` and `AnimatedRequests.GradualBoostTimesOut` give what is applied). The
  remote call always asks for an instant boost (display_power_mgr_service.cpp:543), as it does for an instant discount
  (brightness_manager.cpp:251-263); the service itself accepts durations for both.
- A boost remembers no setting: one that begins before any value was cached ends at 50, whatever the setting
  (`ServiceRequests.FirstBoostEndsAtDefault`; `ServiceRuns.BoostDefersSets` says what every boost ends with).
- The brightness manager is addressed by the low 32 bits of a 64-bit screen id, so for two screens whose ids share them
  it is told one state for both (`MultiScreens.AgreesExactlyWhen`).
- Undoing a failed request refreshes the brightness of screen 0, whichever screen failed, and tells the state
  "unknown" of a screen that was new (`MultiScreens.FailureIsUndone`).

## Model

Each request handler of the class `BrightnessServices.BrightnessService` is proved to compute a specification function
(`UpdateBrightness` computes `Updated`, `OverrideBrightness` computes `Overrode`, and so on); the rows name the lemmas
about those functions.

| member | source | states |
|---|---|---|
| LightLuxBuffers.OffsetIsModular | brightness_manager/src/light_lux_buffer.cpp:224-231 | the wrapped index is (start + index) modulo the capacity |
| LightLuxBuffers.LightLuxBuffer.constructor | brightness_manager/src/light_lux_buffer.cpp:35-44 | an empty history; capacities of 0 and from 512 on become 32 |
| LightLuxBuffers.LightLuxBuffer.CopyLuxBuffer | brightness_manager/src/light_lux_buffer.cpp:80-117 | the full ring, unrolled from any start, holds the samples in order from index 0 |
| LightLuxBuffers.LightLuxBuffer.Push | brightness_manager/src/light_lux_buffer.cpp:119-161 | appends the sample, doubling the room when full; loses it exactly when full and the double exceeds 512 |
| LightLuxBuffers.LightLuxBuffer.Prune | brightness_manager/src/light_lux_buffer.cpp:163-183 | leaves the unexpired suffix with the head raised to the horizon |
| LightLuxBuffers.LightLuxBuffer.Clear | brightness_manager/src/light_lux_buffer.cpp:185-190 | empties the history and keeps the room |
| LightLuxBuffers.LightLuxBuffer.GetData | brightness_manager/src/light_lux_buffer.cpp:192-203 | the sample's lux at an index, 0 outside |
| LightLuxBuffers.LightLuxBuffer.GetTime | brightness_manager/src/light_lux_buffer.cpp:205-217 | the sample's time at an index, 0 outside |
| LuxHistories.PruneCutsAtHorizon | brightness_manager/src/light_lux_buffer.cpp:163-183 | pruning cuts exactly at the last sample of the leading run not newer than the horizon, never emptying, and raises only the head's time |
| LuxHistories.PruneKeepsOrder | brightness_manager/src/light_lux_buffer.cpp:163-183 | times stay sorted and not in the future |
| LuxHistories.RunKeepsHistory | brightness_manager/src/light_lux_buffer.cpp:119-190 | over every run of pushes, prunes and clears from any capacity: room bounded by 512, times sorted, and the contents are the newest accepted samples in order, only the head re-stamped |
| LuxHistories.PushMeans | brightness_manager/src/light_lux_buffer.cpp:119-161 | the sample is appended unless the buffer is full and twice its room exceeds 512; the room doubles exactly when full and at most 256 |
| LuxHistories.OnlyFiveHundredTwelveLose | brightness_manager/src/light_lux_buffer.cpp:119-190 | on every run from room for 32 the room is 32, 64, 128, 256 or 512, and a push is lost iff 512 samples are retained |
| LightLuxManagers.LightLuxManager.CalcSmoothLux | brightness_manager/src/light_lux_manager.cpp:92-118 | the backward loop computes the trimmed mean of the five newest readings, or the newest one while there are fewer |
| LightLuxManagers.LightLuxManager.GetNextBrightenTime | brightness_manager/src/light_lux_manager.cpp:120-137 | the backward scan finds the start of the longest qualifying run of newest samples, plus the debounce time |
| LightLuxManagers.LightLuxManager.GetNextDarkenTime | brightness_manager/src/light_lux_manager.cpp:139-156 | the same for darkening |
| LightLuxManagers.LightLuxManager.CalcDelta | brightness_manager/src/light_lux_manager.cpp:175-199 | the table loop computes the threshold between the points around the filtered lux, at least 1 between points |
| LightLuxManagers.LightLuxManager.UpdateParam | brightness_manager/src/light_lux_manager.cpp:158-173 | adopts the lux, and each threshold unless its table yields a negative one |
| LightLuxManagers.LightLuxManager.IsUpdateLuxSuccess | brightness_manager/src/light_lux_manager.cpp:62-90 | smooths, records, sets the first-lux flag and decides as specified |
| LightLuxManagers.LightLuxManager.IsNeedUpdateBrightness | brightness_manager/src/light_lux_manager.cpp:312-318 | one reading: the new state of both buffers, flag, filtered lux and thresholds, and the decision |
| LightLuxManagers.LightLuxManager.SetLux | brightness_manager/src/light_lux_manager.cpp:42-49 | the same state change, without the decision |
| LightLuxManagers.LightLuxManager.ClearLuxData | brightness_manager/src/light_lux_manager.cpp:248-253 | empties both buffers and nothing else |
| Smoothing.TrimmedMeanIgnoresOrder | brightness_manager/src/light_lux_manager.cpp:103-117 | the result depends only on which five values were read, not on their order |
| Smoothing.TrimmedMeanIsMiddleMean | brightness_manager/src/light_lux_manager.cpp:103-117 | it is the mean of the middle three in sorted order, between second smallest and second largest |
| Smoothing.OneOutlierIsHarmless | brightness_manager/src/light_lux_manager.cpp:103-117 | no single reading can move it outside the range of the other four |
| LuxReadings.SmoothLuxMeans | brightness_manager/src/light_lux_manager.cpp:92-118 | with five or more samples, the mean of the middle three of the newest five in sorted order |
| LuxReadings.FewAreNotSmoothed | brightness_manager/src/light_lux_manager.cpp:92-101 | with fewer, the newest sample; without any, -1 |
| LuxReadings.RecordedIs | brightness_manager/src/light_lux_manager.cpp:56-60 | recording cuts off what expired ten seconds ago and adds the sample, unless 512 are left |
| LuxReadings.RunKeepsRoom | brightness_manager/src/light_lux_manager.cpp:42-90 | on every run both buffers start with room for 32 and have room for 32, 64, 128, 256 or 512 |
| LuxReadings.ReadingRecords | brightness_manager/src/light_lux_manager.cpp:42-79 | a reading is recorded within 0 to 40000 lux, judged by the smoothed lux of the buffer it leaves, and that value recorded too |
| LuxReadings.RecentReadingsAreRetained | brightness_manager/src/light_lux_manager.cpp:56-60 | on every run the buffer ends with exactly the readings of up to ten seconds, in order and with their times, unless one was lost |
| LuxReadings.FiveReadingsAreSmoothed | brightness_manager/src/light_lux_manager.cpp:56-118 | on every run the last of five readings within ten seconds is judged by the mean of the middle three of them |
| LuxReadings.SteadyLightIsJudged | brightness_manager/src/light_lux_manager.cpp:56-118 | on every run the fifth and later of consecutive readings of one lux, however far apart, are judged by that lux |
| LuxReadings.DecisionMeans | brightness_manager/src/light_lux_manager.cpp:62-156 | a reading updates iff it is the first, or brightening or darkening has no debounce time, or some sample old enough for it and all later ones differ from the filtered lux by that threshold |
| LuxReadings.AdoptionLeaves | brightness_manager/src/light_lux_manager.cpp:86-173 | an update adopts the judged lux and the threshold each table asks for at it; any other reading leaves all three |
| LuxReadings.NoTableKeepsThreshold | brightness_manager/src/light_lux_manager.cpp:158-173 | on every run a direction without a table keeps the threshold of 120 or 110 lux it starts with |
| LuxProperties.NewestIsJudged | brightness_manager/src/light_lux_manager.cpp:62-82 | the newest retained smoothed sample equals the value judged, even when a full buffer lost the sample |
| LuxProperties.RecordingKeepsInvariant | brightness_manager/src/light_lux_manager.cpp:56-82 | raw and smoothed buffer keep equal size, room and timestamps, all values in [0, 40000], and only a lone sample is a first one |
| LuxProperties.DueMeansHeld | brightness_manager/src/light_lux_manager.cpp:120-156 | with two or more samples a direction is due iff its debounce time is not positive or some sample timed at or before now minus debounce and all later ones lie beyond the threshold |
| LuxProperties.UpdateMeans | brightness_manager/src/light_lux_manager.cpp:62-90 | a reading updates iff it is the first or a direction is due in that sense; the first-lux flag is set iff the buffer was empty |
| LuxProperties.InsideBandHolds | brightness_manager/src/light_lux_manager.cpp:62-90 | a value strictly inside the band changes neither filtered lux nor thresholds |
| LuxProperties.DirectionsExclude | brightness_manager/src/light_lux_manager.cpp:62-199 | on every run whose tables do not vanish, brightening and darkening are never due together |
| LuxProperties.RunKeepsDeltaAtLeastOne | brightness_manager/src/light_lux_manager.cpp:158-199 | tables ending in at least 1 keep their threshold at 1 or more on every run |
| LuxProperties.DeltaVanishes | brightness_manager/src/light_lux_manager.cpp:175-199 | a table yields threshold 0 for some valid lux iff its last value is 0 and all its points are within the lux range |
| LuxProperties.DeltaAtLeastOne | brightness_manager/src/light_lux_manager.cpp:175-199 | a table ending in at least 1 yields thresholds of at least 1 |
| LuxProperties.DeltaIsLinear | brightness_manager/src/light_lux_manager.cpp:175-199 | between two points the threshold is on the line through them where that is above 1, and 1 elsewhere or for points too close |
| LuxProperties.DeltaOutside | brightness_manager/src/light_lux_manager.cpp:175-199 | before the first point it is 1, behind the last that point's value, without points -1 |
| LuxAdoption.HeldChangeIsAdopted | brightness_manager/src/light_lux_manager.cpp:56-156 | when every reading over a debounce time that fits the window is judged beyond the threshold, one of them is an update, through pruning, re-stamped heads and lost samples |
| LuxAdoption.LongDebounceNeverAdopts | brightness_manager/src/light_lux_manager.cpp:56-156 | on no run is a reading judged beyond the threshold an update when its debounce time outlasts the window and the other direction has one |
| LuxAdoption.AdoptedExactlyWhen | brightness_manager/src/light_lux_manager.cpp:56-199 | a mode adopts every lasting change in a direction iff its debounce time fits the window, or the other direction has none, or no lux of the sensor's range exceeds a threshold in force |
| LuxProperties.RunKeepsInvariant | brightness_manager/src/light_lux_manager.cpp:42-90 | lockstep, order and ranges hold in every reachable state; the buffers are empty iff nothing was sensed since the last clearing |
| LuxProperties.FirstFlagMeans | brightness_manager/src/light_lux_manager.cpp:70-75 | after a sample the flag is set iff it is the first since the start or the last clearing |
| LuxProperties.BandRunHolds | brightness_manager/src/light_lux_manager.cpp:62-90 | any run of readings inside the band leaves filtered lux and thresholds where they were |
| LuxProperties.BandRunNeverUpdates | brightness_manager/src/light_lux_manager.cpp:62-90 | no reading of such a run is an update |
| LuxProperties.UpdatesAreSpaced | brightness_manager/src/light_lux_manager.cpp:62-156 | between clearings any two updates are at least the shorter debounce time apart, under changing modes, pruning and lost samples |
| LuxProperties.BrightRunIsUnspaced | brightness_manager/src/light_lux_manager.cpp:175-199 | with a table that vanishes in range and a debounce time within the window, three bright readings break the spacing |
| LuxProperties.SpacedExactlyWhen | brightness_manager/src/light_lux_manager.cpp:62-199 | a mode spaces its updates on every run iff the shorter debounce time is not positive or neither direction is defective |
| CalculationCurves.BrightnessCalculationCurve.GetBrightnessCurveLevel | brightness_manager/src/calculation_curve.cpp:64-82 | the loop computes the line between the points around the lux, the last level beyond them, the default before them |
| CalculationCurves.CurveIsLinear | brightness_manager/src/calculation_curve.cpp:64-82 | between two points the level is on the line through them, or 100 for points too close |
| CalculationCurves.CurveOutside | brightness_manager/src/calculation_curve.cpp:52-82 | before the first point it is 100, behind the last that point's level |
| CalculationCurves.CurveIsMonotone | brightness_manager/src/calculation_curve.cpp:64-82 | on a rising curve more light from the first point on never gives less |
| CalculationCurves.MonotoneExactlyWhen | brightness_manager/src/calculation_curve.cpp:64-82 | over all light from zero the curve is monotone iff it starts at zero or no lower than the default level |
| CalculationCurves.CurveStaysVisible | brightness_manager/src/calculation_curve.cpp:52-82 | levels of a curve with points in (0, 255] stay in (0, 255] |
| CalculationManagers.BrightnessCalculationManager.GetInterpolatedBrightnessLevel | brightness_manager/src/calculation_manager.cpp:56-80 | the level at a lux for any position, and the new offset state including a dropped offset |
| CalculationManagers.BrightnessCalculationManager.UpdateBrightnessOffset | brightness_manager/src/calculation_manager.cpp:240-255 | places, resets or ignores the user's position |
| CalculationManagers.BrightnessCalculationManager.ResetDefaultBrightnessOffset | brightness_manager/src/calculation_manager.cpp:257-267 | clears everything but the last curve level |
| CalculationManagers.BrightnessCalculationManager.ResetOffsetFromHumanFactor | brightness_manager/src/calculation_manager.cpp:293-308 | moves the position into the given range and the delta with it |
| OffsetProperties.BrightenRaised | brightness_manager/src/calculation_manager.cpp:147-170 | a raised start brightens to the larger of its blended target and the curve |
| OffsetProperties.DarkenLowered | brightness_manager/src/calculation_manager.cpp:202-223 | a lowered start darkens to the smaller of its blended target and the curve |
| OffsetProperties.BrightenLowered | brightness_manager/src/calculation_manager.cpp:185-200 | a cut shrinks in proportion to the room left below 255 |
| OffsetProperties.ShippedOffsetMeans | brightness_manager/src/calculation_manager.cpp:109-238 | with the weights of the shipped code, all cases of the offset in closed form, tiny offsets and starts at the ends of the range included |
| OffsetProperties.OffsetIsMonotone | brightness_manager/src/calculation_manager.cpp:109-238 | across all four cases and for all weights in [0, 1], more curve brightness never gives less after the offset |
| OffsetProperties.RunKeepsInvariant | brightness_manager/src/calculation_manager.cpp:56-308 | in every reachable state delta = position - start, and the last curve level is positive iff a lux was evaluated since the last reset |
| OffsetProperties.OffsetIsHonoured | brightness_manager/src/calculation_manager.cpp:56-80 | the same light gives back the user's position clamped to [4, 255] iff a lux was evaluated since the last reset; otherwise the offset is dropped for the plain curve |
| OffsetProperties.OffsetFollowsCurve | brightness_manager/src/calculation_manager.cpp:56-238 | after every history of calls, a position picked at one light gives at any other the level that the cases of the offset say, within 4 to 255, iff a lux was evaluated since the last reset; else the curve's level |
| OffsetProperties.ZeroTakesBack | brightness_manager/src/calculation_manager.cpp:240-267 | after a position of zero every light gives the plain curve |
| OffsetProperties.InvalidLightPlacesNothing | brightness_manager/src/calculation_manager.cpp:240-244 | at a light outside 0 to 40000 nothing is placed |
| OffsetProperties.HumanFactorMeans | brightness_manager/src/calculation_manager.cpp:293-308 | enabled, a position in use moves to the nearer limit, the delta with it; nothing else changes but the last level |
| OffsetProperties.LevelIsMonotone | brightness_manager/src/calculation_manager.cpp:56-80 | the level, with or without an offset in force, follows the curve monotonically |
| Strides.Stride | brightness_manager/src/brightness_dimming.cpp:88-91 | the stride is the truncated quotient, at least one unit, toward the target |
| Strides.StepsFillDuration | brightness_manager/src/brightness_dimming.cpp:79-82 | the steps fill the duration up to less than one interval; a shorter duration has one |
| Strides.AdjustedStepsFit | brightness_manager/src/brightness_dimming.cpp:93-97 | the corrected step count is the distance divided by the stride even when its unsigned subtraction wraps |
| BrightnessDimmings.BrightnessDimming.StartDimming | brightness_manager/src/brightness_dimming.cpp:63-103 | the state a start leaves, or no change while one runs |
| BrightnessDimmings.BrightnessDimming.StopDimming | brightness_manager/src/brightness_dimming.cpp:105-118 | switches dimming off and cancels the pending task |
| BrightnessDimmings.BrightnessDimming.NextStep | brightness_manager/src/brightness_dimming.cpp:140-184 | one tick: new state, rescheduled task and reported value |
| DimmingProperties.RunKeepsConsistent | brightness_manager/src/brightness_dimming.cpp:63-184 | over all interleavings of starts, stops and ticks, dimming is on iff exactly one task is pending |
| DimmingProperties.SilentAfterStop | brightness_manager/src/brightness_dimming.cpp:105-145 | from a stop to the next start nothing is pending and nothing is reported |
| DimmingProperties.ReportsAreBounded | brightness_manager/src/brightness_dimming.cpp:150-181 | without a new start, the values still reported are bounded by the steps remaining |
| DimmingProperties.UndisturbedRun | brightness_manager/src/brightness_dimming.cpp:140-184 | tick k reports from + k * stride, the last one the target, after ceil(distance / stride) ticks; no addition wraps |
| DimmingProperties.PositionsApproach | brightness_manager/src/brightness_dimming.cpp:155-172 | every tick moves strictly toward the target by at most one stride and never past it |
| DimmingProperties.RunLengthIsBounded | brightness_manager/src/brightness_dimming.cpp:80-97 | a run takes at most twice the update intervals in its duration |
| DimmingProperties.StrideSharesChange | brightness_manager/src/brightness_dimming.cpp:79-97 | of the 32 ms intervals in the duration each covers its share of the change, at least one unit, and as many ticks as strides are needed |
| GradualAnimators.GradualAnimator.StartAnimation | state_manager/service/native/src/gradual_animator.cpp:40-73 | the state a start leaves, or no change while one runs |
| GradualAnimators.GradualAnimator.StopAnimation | state_manager/service/native/src/gradual_animator.cpp:75-85 | switches the animation off and cancels the pending task |
| GradualAnimators.GradualAnimator.NextStep | state_manager/service/native/src/gradual_animator.cpp:97-134 | one tick: new state, rescheduled task and reported value |
| GradualAnimators.AnimationIsExact | state_manager/service/native/src/gradual_animator.cpp:97-134 | the older animator walks by its stride and ends on the target after min(steps, distance) ticks; no addition wraps |
| GradualAnimators.StrideSharesChange | state_manager/service/native/src/gradual_animator.cpp:40-73 | of the 30 ms intervals in the duration each covers its share of the change, at least one unit |
| GradualAnimators.PlacesApproach | state_manager/service/native/src/gradual_animator.cpp:56-131 | strictly monotone, at most its steps long, and only the last jump exceeds the stride, by less than the steps |
| LevelMaps.ToDeviceIsMonotone | brightness_manager/src/brightness_service.cpp:1073-1088 | a higher level never maps to a lower device level, for any tops of the ranges |
| LevelMaps.ToDeviceInRange | brightness_manager/src/brightness_service.cpp:1073-1088 | device levels stay between the minimum and the top of the device range |
| LevelMaps.RescaledIsNearest | brightness_manager/src/brightness_service.cpp:1073-1102 | a mapped level is the one nearest to the exact one, for any tops of the two ranges |
| LevelMaps.ShippedMapsAreNearest | brightness_manager/src/brightness_service.cpp:1073-1102 | levels of 1 to 255 map to the nearest of 1 to 223 and back, others as the nearer end, down to the minimum parameter |
| LevelMaps.ToDeviceUndoesToSetting | brightness_manager/src/brightness_service.cpp:1073-1102 | mapping after un-mapping is the identity on the device's levels, down to the minimum parameter |
| LevelMaps.SettingDoesNotDrift | brightness_manager/src/brightness_service.cpp:287-290 | writing back the setting of a device level again does not move it |
| ServiceInvariants.TickTouches | brightness_manager/src/brightness_service.cpp:271-296 | a tick of an animation touches device, setting, its caches and the animation only |
| ServiceInvariants.UpdatedTouches | brightness_manager/src/brightness_service.cpp:976-1003 | an update changes nothing beyond animation, device, setting and its caches, and writes no setting when not asked, gradual or refused |
| ServiceInvariants.UpdatedAtOnce | brightness_manager/src/brightness_service.cpp:976-1003 | without duration no animation runs on, and an accepted level is the clamped, discounted and mapped value |
| ServiceInvariants.StepKeepsInvariant | brightness_manager/src/brightness_service.cpp:271-1024 | every request and timer keeps: override and boost exclude each other, one pending end per boost, one pending task per animation, a sleeping override remembers the persisted setting, sensor only in auto mode, a coherent offset |
| ServiceInvariants.BoostIsExclusiveAndBounded | brightness_manager/src/brightness_service.cpp:874-974 | on all runs from the initial state, override and boost are never both on and a boost has exactly one end pending |
| ServiceInvariants.SensorFollowsDisplay | brightness_manager/src/brightness_service.cpp:317-333 | after a display change the sensor is on iff the screen is on in auto mode, and its data is cleared exactly when it goes off |
| ServiceRequests.InstantUpdateMeans | brightness_manager/src/brightness_service.cpp:976-1003 | an instant update ends animations; accepted, the device shows the limited value discounted and mapped, and setting, level and cache are it if asked to |
| ServiceRequests.GradualUpdateWalks | brightness_manager/src/brightness_service.cpp:986-989 | a gradual one writes nothing itself and walks tick by tick from the setting to the level that shows the limited value |
| ServiceRequests.TickMeans | brightness_manager/src/brightness_service.cpp:271-297 | what a tick reports is shown if the display accepts it, and awake the nearest setting is written; refused, or silent, neither changes |
| ServiceRequests.SetMeans | brightness_manager/src/brightness_service.cpp:735-761 | a level set at once ends an override and is aimed at, shown and, unless continuous, written; refused it is only cached |
| ServiceRequests.GradualSetMeans | brightness_manager/src/brightness_service.cpp:735-761 | a level set gradually is aimed at and walked to |
| ServiceRequests.OverrideMeans | brightness_manager/src/brightness_service.cpp:874-888 | an instant override remembers the setting and its own value and shows that one; refused it changes nothing |
| ServiceRequests.GradualOverrideMeans | brightness_manager/src/brightness_service.cpp:874-888 | a gradual one remembers the same and walks there |
| ServiceRequests.RestoreMeans | brightness_manager/src/brightness_service.cpp:890-899 | a restore ends the override and shows and writes the remembered setting; refused it changes nothing |
| ServiceRequests.GradualRestoreMeans | brightness_manager/src/brightness_service.cpp:890-899 | a gradual restore ends the override and walks to the remembered setting |
| ServiceRequests.SleepMeans | brightness_manager/src/brightness_service.cpp:854-872 | a dim request overrides a setting above 1 with the reduced level, over the configured time; boosted it only marks the sleep |
| ServiceRequests.OffMeans | brightness_manager/src/brightness_service.cpp:335-343 | off ends sleep and its override without restoring, stops animations and aims at 0 |
| ServiceRequests.OnMeans | brightness_manager/src/brightness_service.cpp:344-352 | on restores the override that sleep made, and waits for the first light |
| ServiceRequests.DiscountMeans | brightness_manager/src/brightness_service.cpp:830-852 | an instant discount, moved into 0.01 to 1, is applied to the boost, the override or the setting, which stays |
| ServiceRequests.BoostMeans | brightness_manager/src/brightness_service.cpp:906-927 | an instant boost shows the maximum and schedules its one end, leaving setting and cache; a second one only schedules the end anew |
| ServiceRequests.CancelBoostMeans | brightness_manager/src/brightness_service.cpp:929-939 | ending a boost empties the queue and shows and writes the cached value |
| ServiceRequests.FirstBoostEndsAtDefault | brightness_manager/include/brightness_service.h:228 | a boost right after the start of the service ends at 50 whatever the setting |
| ServiceRequests.LimitMeans | brightness_manager/src/brightness_service.cpp:1237-1261 | a new limit of 255 times the factor, rounded, is stored up to 255 and walked to in 3 s, or the level in use is if it is within; the same limit changes nothing |
| ServiceRequests.AutoAdjustMeans | brightness_manager/src/brightness_service.cpp:403-431 | automatic brightness and sensor switch as asked if there is one; off it clears the sensor data and nothing else |
| ServiceRequests.ClearOffsetMeans | brightness_manager/src/brightness_service.cpp:793-802 | clearing the offset stops animations, and every light then asks for the level of the curve |
| ServiceRequests.ReadingTakes | brightness_manager/src/brightness_service.cpp:669-683 | a reading is followed at once, in 500 ms, in 5 s when darker or in 2 s |
| ServiceRequests.ReadingMeans | brightness_manager/src/brightness_service.cpp:632-703 | an accepted reading that asks for a level aims at it, and shows and writes it at once or walks to it |
| ServiceRequests.ReadingIsRefused | brightness_manager/src/brightness_service.cpp:632-643 | off, overridden or boosted a reading changes nothing |
| ServiceRuns.BoostBegins | brightness_manager/src/brightness_service.cpp:906-927 | an accepted instant boost ends animations, keeps setting and cache, and schedules one instant end |
| ServiceRuns.BoostStays | brightness_manager/src/brightness_service.cpp:735-927 | sets, instant boosts and discounts, display changes and readings during it keep the boost; a set only changes the cache |
| ServiceRuns.OverrideBegins | brightness_manager/src/brightness_service.cpp:874-888 | an accepted instant override ends animations, keeps the setting and remembers it |
| ServiceRuns.BoostDefersSets | brightness_manager/src/brightness_service.cpp:735-974 | ending an instant boost, by request or timer, applies the last value set during it or the one cached before, clamped; the setting does not move until then |
| AnimatedRequests.GradualBoostEnds | brightness_manager/src/brightness_service.cpp:906-939 | after a boost of any positive duration, any requests for levels and ticks, and an instant end, the value cached last by either is applied, clamped |
| AnimatedRequests.GradualBoostTimesOut | brightness_manager/src/brightness_service.cpp:920-939 | the end such a boost schedules for itself has the same duration: from the setting its ticks moved to, it walks device and setting toward the level of the value cached last |
| AnimatedRequests.GradualBoostForgets | brightness_manager/src/brightness_service.cpp:282-291 | one tick after a request for 80 ends such a boost at 255 |
| ServiceRuns.SleepLowers | brightness_manager/src/brightness_service.cpp:854-872 | sleep always lowers the brightness, by the reduction and to the sleep level at most, down to 1 |
| ServiceRuns.SleepRoundTrip | brightness_manager/src/brightness_service.cpp:317-353 | any number of dim requests and animation ticks, then on or off, leaves the setting it began with (clamped if an override is restored) and ends sleep, boosted or not |
| ServiceRuns.RestoreUndoesOverrides | brightness_manager/src/brightness_service.cpp:830-899 | any instant overrides and discounts, light readings and rejected boosts, then a restore: the clamped earlier setting is back and the device shows it discounted |
| ServiceRuns.OverrideStays | brightness_manager/src/brightness_service.cpp:632-642 | while overridden, readings change nothing at all and the other requests keep the remembered setting |
| ServiceRuns.RestoreReturnsToLastOverride | brightness_manager/src/brightness_service.cpp:874-899 | with animations of any duration, a restore returns to the setting as it was at the last override |
| AnimatedRequests.GradualOverrideRestores | brightness_manager/src/brightness_service.cpp:282-291 | after an override of any duration, any number of its ticks, a second override and a restore, the setting is the one the ticks moved to, clamped; the original one comes back iff both clamp to the same |
| AnimatedRequests.GradualOverrideMovesSetting | brightness_manager/src/brightness_service.cpp:282-291 | one tick is enough to restore 200 instead of 100 |
| AnimatedRequests.DiscountComesBack | brightness_manager/src/brightness_service.cpp:830-852 | after a discount, boosted, overridden or neither, any number of its ticks and factor one again, the setting is the one the ticks moved to and the device shows the boost, the override or that setting; nothing moved if the discount was instant, asleep or not ticked |
| AnimatedRequests.GradualDiscountSticks | brightness_manager/src/brightness_service.cpp:830-852 | one tick of a discount by half leaves the setting 100 at 50 |
| AnimatedRequests.FactorOneMovesSetting | brightness_manager/src/brightness_service.cpp:830-852 | even a gradual discount by one moves the setting 5 to 4 |
| ServiceRuns.DeviceIsMonotone | brightness_manager/src/brightness_service.cpp:706-714 | in every reachable state more light never asks for a lower device level, through curve, offset, clamp, truncation, limit, discount and level map |
| ServiceAnimations.ReadingDrivesDevice | brightness_manager/src/brightness_service.cpp:632-697 | a reading that asks for a level sends exactly that device level at once, or starts an animation iff the setting is another number, which left alone ends at that level iff the setting is another number or the device is there already |
| ServiceAnimations.OtherReadingsPass | brightness_manager/src/brightness_service.cpp:632-697 | any other reading leaves device, animation and setting alone |
| RepeatedReadings.RepeatedReading | brightness_manager/src/brightness_service.cpp:632-697 | after a reading is animated to its end and any number of readings that are not accepted, an accepted reading that asks for the same level starts no animation iff the first one started none or ran asleep, or the device level reached maps back to that level or to its own number; device and setting stay at once either way |
| RepeatedReadings.SteadyLevelMakesDeviceJump | brightness_manager/src/brightness_service.cpp:632-697 | three readings of a positive debounce time and thresholds of 1, all asking for level 203, make the device jump from 178 to 203 |
| UserOffsets.OffsetRefines | brightness_manager/src/brightness_service.cpp:632-802 | over all runs the offset inside the service behaves as it does alone on the evaluations and placements that readings, instant sets and clearings make |
| UserOffsets.LitMeansPositive | brightness_manager/src/calculation_manager.cpp:56-80 | over all runs the last curve level is positive iff a reading was accepted since the level was last taken back |
| UserOffsets.UserLevelSticks | brightness_manager/src/brightness_service.cpp:735-760 | on every run, a level set while the sensor is in charge, also to end an override, is the level the same light asks for, then and after any later events that place no other, if a reading was accepted since a level was last taken back; else the curve's level is |
| UserOffsets.UserLevelFollowsCurve | brightness_manager/src/brightness_service.cpp:706-760 | on every run, at any other light that level asks for what the cases of the offset say, within 4 to 255, then and after any later events that place no other |
| ServiceAnimations.GradualUpdateMoves | brightness_manager/src/brightness_service.cpp:986-989 | a gradual update left alone walks the device from the setting to the requested level, the setting following it back-mapped while awake; between equal numbers nothing moves |
| ServiceAnimations.GradualUpdateArrives | brightness_manager/src/brightness_service.cpp:986-989 | at its end the device is at the requested level iff the setting is another number than that level or the device was there already |
| ServiceAnimations.EqualNumbersDropUpdate | brightness_manager/src/brightness_dimming.cpp:84-87 | at setting 100 and device level 88 a request for 114 succeeds, and the device stays at 88 forever |
| DeviceRanges.GradualUpdateStaysInRange | brightness_manager/src/brightness_service.cpp:986-989 | a gradual update keeps the device within the range requests map to iff nothing is animated or its first step ends within that range |
| DeviceRanges.FirstStepOvershoots | brightness_manager/src/brightness_service.cpp:986-989 | from setting 255 a gradual change to 250 first sends 254 to the device |
| DeviceRanges.DeviceLeavesSteeply | brightness_manager/src/brightness_service.cpp:271-1024 | on every run the device leaves that range only by a tick of an animation whose start, target and duration put its first step above the range |
| DeviceRanges.InitialIsSettled | brightness_manager/src/brightness_service.cpp:271-1024 | every initial state with a device level in that range meets what the next row asks of the start of a run |
| DeviceRanges.DeviceStaysInRange | brightness_manager/src/brightness_service.cpp:271-1024 | on every run on which the display accepts the ticks, the device stays within that range iff no such animation ticks |
| AutoBrightness.ProjectionRefines | brightness_manager/src/brightness_service.cpp:632-651 | inside the service the sensor pipeline behaves as it does alone on the readings that get through |
| AutoBrightness.AutoUpdatesAreSpaced | brightness_manager/src/brightness_service.cpp:632-697 | whatever requests and timers interleave, automatic updates are at least the shorter debounce time apart while the sensor data is not cleared |
| CallbackRegistries.MultiScreenDisplayStateCallbackManager.Register | state_manager/service/native/src/multi_screen_display_state_callback_manager.cpp:41-70 | adds the pair iff the callback is known or a proxy; the three maps keep the same callbacks, each with one attached death recipient |
| CallbackRegistries.MultiScreenDisplayStateCallbackManager.Unregister | state_manager/service/native/src/multi_screen_display_state_callback_manager.cpp:72-101 | removes the pair, or every pair of the callback for the id that means all |
| CallbackRegistries.MultiScreenDisplayStateCallbackManager.RemoveAll | state_manager/service/native/src/multi_screen_display_state_callback_manager.cpp:103-122 | removes every pair of the callback and detaches its death recipient |
| CallbackRegistries.MultiScreenDisplayStateCallbackManager.Notify | state_manager/service/native/src/multi_screen_display_state_callback_manager.cpp:124-155 | each callback hears once per pair whose id matches or means all |
| CallbackRegistries.RegistryTellsHistory | state_manager/service/native/src/multi_screen_display_state_callback_manager.cpp:41-122 | after any run exactly those pairs are registered whose proxy callback registered them and that nothing removed since |
| CallbackRegistries.HearsWhatItRegistered | state_manager/service/native/src/multi_screen_display_state_callback_manager.cpp:41-155 | after any run a callback hears of a screen once for each standing registration of a proxy for it or for the id 2^64 - 1, and of nothing else |
| CallbackRegistries.StrangersNeedProxy | state_manager/service/native/src/multi_screen_display_state_callback_manager.cpp:41-70 | a null callback, or a non-proxy without a registration, is turned away; any other gets the pair and nothing else changes |
| CallbackRegistries.UnregisterUndoesRegister | state_manager/service/native/src/multi_screen_display_state_callback_manager.cpp:41-101 | registering a new pair and unregistering it is a round trip |
| CallbackRegistries.RemovedHearsNothing | state_manager/service/native/src/multi_screen_display_state_callback_manager.cpp:103-155 | a removed callback hears nothing, and the others hear what they did |
| MultiScreens.NotificationsFollowState | state_manager/service/native/src/display_power_mgr_service.cpp:638-651 | over all interleavings no screen's callbacks hear the same state twice in a row, between requests they last heard the stored state, and every begin is closed by its own end |
| MultiScreens.RunKeepsAgreement | state_manager/service/native/src/display_power_mgr_service.cpp:638-651 | over all interleavings on screens with distinct low halves, the brightness manager was last told each screen's state or the target of the request in progress |
| MultiScreens.AliasesDisagree | state_manager/service/native/src/display_power_mgr_service.cpp:643-647 | two ids with the same low half end in disagreement after one request each |
| MultiScreens.AgreesExactlyWhen | state_manager/service/native/src/display_power_mgr_service.cpp:643-647 | what the brightness manager was last told always agrees with the screens iff no two of them share the low half of their ids |
| MultiScreens.StepsMakeRequest | state_manager/service/native/src/screen_controller.cpp:331-370 | the single calls of an undisturbed request add up to one atomic request |
| MultiScreens.SuccessIsMade | state_manager/service/native/src/display_power_mgr_service.cpp:638-651 | an undisturbed request that succeeds stores its state, brackets it with the calls of its kind, tells the brightness manager under the low 32 bits and refreshes a screen turned on |
| MultiScreens.NeedlessRequestsPass | state_manager/service/native/src/display_power_mgr_service.cpp:601-640 | a request for the state the screen has, or for one that is neither on nor off, changes nothing |
| MultiScreens.FailureIsUndone | state_manager/service/native/src/display_power_mgr_service.cpp:312-319 | a failed request leaves every screen as it was but for the announced calls, and the last state told as it was, or "unknown" for a new screen; the refresh it asks for goes to screen 0 |
| MultiScreenServices.ScreenController.UpdateMultiScreenState | state_manager/service/native/src/screen_controller.cpp:331-370 | announces begin and end around the two calls and stores state and reason iff both succeed |
| MultiScreenServices.DisplayPowerMgrService.GetMultiScreenDisplayState | state_manager/service/native/src/display_power_mgr_service.cpp:654-682 | reads a screen's state, creating an unknown one |
| MultiScreenServices.DisplayPowerMgrService.SetMultiScreenDisplayState | state_manager/service/native/src/display_power_mgr_service.cpp:601-652 | rejects other states than on and off and names over 100 characters without effect; else performs the atomic request, answers success or failure, and notifies interested callbacks exactly on a change that succeeded |

## Left out

- Strides.Change: signed overflow, which C++ leaves undefined for levels of 2^31 and more, is taken to wrap; the exact runs are stated for levels below 2^31, the protocol lemmas for all.
- BrightnessServices.ToUInt32: float casts outside the range of `uint32_t`, undefined in C++, saturate.
- BrightnessServices.BrightnessService.UpdateBrightness: the flag that waits for the first light, which every update resets, is not in the state.
- BrightnessServices.BrightnessService.UpdateCurrentBrightnessLevel: does not cancel the delayed call that waits for the first light.
- BrightnessServices.BrightnessService.OnChanged: without the guards that ignore values reported after a stop, because a tick and what it reports are one step.
- BrightnessServices.BrightnessService.AutoAdjustBrightness: does not write the persisted auto setting off on a device without a light sensor; nor does `StateChangedSetAutoBrightness`.
- MultiScreens.RunKeepsAgreement: speaks of what the brightness manager was last told per 32-bit id. Whether it has an entry for that id, and keeps a state per id at all, is decided on its side and not part of this model.
- LightLuxManagers.LightLuxManager.SetSceneMode: demands a configured mode, where the source throws at the next lookup.
- CalculationManagers.BrightenOffsetDarkenRatio: the power in the darkening ratio is 1, because its exponent is never assigned; the three blending weights, never assigned either, are kept as parameters.
- Rounding of `float` and `double`: real arithmetic stands for it.
- AutoBrightness.AutoUpdatesAreSpaced: the clock of readings starts at zero or later; so it does for `UserOffsets.UserLevelSticks`.
- CallbackRegistries.MultiScreenDisplayStateCallbackManager.Notify: the order among different callbacks, which follows pointer order, is not stated.
- Concurrency inside one request of the brightness service, and between it and the thread of the animator: each request and each tick is one step.
- Failing cancels of pending tasks, allocation failures, `DeInit` and `Reset`.
- `SetScreenOnBrightness` and the wait for the first light after screen-on, including its timer; in the multi-screen model it is a recorded call.
- Foldable devices: the second sensor, fold listeners and display switching; there is one light sensor.
- A settings database that refuses reads or writes; the persisted setting is a variable that always accepts.
- The nit maps, the high-brightness map, battery statistics and the lux-level events: no state that matters here.
- Single-screen state changes, delayed display-off and the controller's own brightness methods: they depend on an asynchronous display callback that is not part of this model.
- Permission checks, IPC proxies, bindings, configuration parsing, logging and the published common event.
