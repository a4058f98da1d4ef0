/** The service that owns the screen controllers, one request at a time. */
module MultiScreenServices {
  import opened Common
  import opened CallbackRegistries
  import opened MultiScreens

  const MAX_SCREEN_NAME_LENGTH: nat := 100

  datatype DisplayError = Ok | ParamInvalid | StateChangeFailed

  class ScreenController {
    var state: DisplayState
    var stateChangeReason: uint32
    var power: seq<PowerCall>

    constructor ()
      ensures state == Unknown && power == []
    {
      state, stateChangeReason, power := Unknown, 0, [];
    }

    /** `r` holds what the display and the screen manager answer; `refresh` asks for the screen-on brightness. */
    method UpdateMultiScreenState(target: DisplayState, reason: uint32, r: Answers) returns (ok: bool, refresh: bool)
      modifies this
      ensures ok <==> r.shownOk && r.poweredOk
      ensures refresh <==> ok && target == On
      ensures power == old(power) + [BeginCall(target), EndCall(target)]
      ensures state == if ok then target else old(state)
      ensures stateChangeReason == if ok then reason else old(stateChangeReason)
    {
      refresh := false;
      if target == On {
        power := power + [WakeUpBegin];
      } else {
        power := power + [SuspendBegin];
      }
      var setDisplayStateRet := r.shownOk;
      var setScreenPowerRet := r.poweredOk;
      if target == On {
        power := power + [WakeUpEnd];
      } else {
        power := power + [SuspendEnd];
      }
      if !setDisplayStateRet || !setScreenPowerRet {
        return false, false;
      }
      if target == On {
        refresh := true;
      }
      state := target;
      stateChangeReason := reason;
      ok := true;
    }
  }

  class DisplayPowerMgrService {
    var controllerMap: map<uint64, ScreenController>
    var told: map<uint32, DisplayState>
    var refreshed: seq<uint32>
    var notified: map<uint64, seq<DisplayState>>
    const callbacks: MultiScreenDisplayStateCallbackManager

    /** Every screen has its own controller and its own log. */
    ghost predicate Valid()
      reads this
    {
      && notified.Keys == controllerMap.Keys
      && forall a, b :: a in controllerMap && b in controllerMap && controllerMap[a] == controllerMap[b] ==> a == b
    }

    ghost function ScreenOf(id: uint64): Screen
      reads this, controllerMap.Values
      requires id in controllerMap && id in notified
    {
      assert controllerMap[id] in controllerMap.Values;
      Screen(controllerMap[id].state, Idle, notified[id], controllerMap[id].power)
    }

    ghost function State(): World
      reads this, controllerMap.Values
      requires notified.Keys == controllerMap.Keys
    {
      World(map id | id in controllerMap :: ScreenOf(id), told, refreshed)
    }

    constructor (callbacks: MultiScreenDisplayStateCallbackManager)
      ensures Valid() && State() == EMPTY_WORLD && this.callbacks == callbacks
    {
      this.callbacks := callbacks;
      controllerMap, told, refreshed, notified := map[], map[], [], map[];
    }

    method Create(id: uint64) returns (controller: ScreenController)
      requires Valid() && id !in controllerMap
      modifies this`controllerMap, this`notified
      ensures Valid() && fresh(controller) && controllerMap == old(controllerMap)[id := controller]
      ensures State() == With(old(State()), id, NEW_SCREEN)
    {
      ghost var was := State();
      controller := new ScreenController();
      controllerMap := controllerMap[id := controller];
      notified := notified[id := []];
      assert State().screens == was.screens[id := NEW_SCREEN] by {
        forall other | other in was.screens ensures ScreenOf(other) == was.screens[other] {}
      }
    }

    /** Finds the controller of a screen, creating it on first use. */
    method Controller(id: uint64) returns (controller: ScreenController)
      requires Valid()
      modifies this`controllerMap, this`notified
      ensures Valid() && id in controllerMap && controllerMap[id] == controller
      ensures State() == WithScreen(old(State()), id)
      ensures controllerMap == old(controllerMap) || fresh(controller)
      ensures controllerMap == old(controllerMap)[id := controller]
    {
      if id !in controllerMap {
        controller := Create(id);
      } else {
        controller := controllerMap[id];
      }
    }

    method GetMultiScreenDisplayState(id: uint64) returns (state: DisplayState)
      requires Valid()
      modifies this`controllerMap, this`notified
      ensures Valid() && State() == WithScreen(old(State()), id)
      ensures state == State().screens[id].state
    {
      var controller := Controller(id);
      state := controller.state;
    }

    /** Tells the brightness manager the stored state again. */
    method UndoSetDisplayState(id: uint64, current: DisplayState)
      modifies this`told, this`refreshed
      ensures told == old(told)[Low32(id) := current]
      ensures refreshed == if current == On || current == Dim then old(refreshed) + [0] else old(refreshed)
    {
      told := told[Low32(id) := current];
      if current == On || current == Dim {
        refreshed := refreshed + [0];
      }
    }

    method NotifyMultiScreenStateChanged(id: uint64, target: DisplayState) returns (delivered: seq<Callback>)
      requires callbacks.Valid() && id in notified
      modifies this`notified
      ensures notified == old(notified)[id := old(notified)[id] + [target]]
      ensures forall c :: multiset(delivered)[c] == Interest(callbacks.Pairs(), c, id)
    {
      delivered := callbacks.Notify(id);
      notified := notified[id := notified[id] + [target]];
    }

    /** The part of a request that runs once the states are known to differ. */
    method Change(id: uint64, target: DisplayState, reason: uint32, r: Answers) returns (ok: bool)
      requires Valid() && id in controllerMap && controllerMap[id].state != target && IsTarget(target)
      modifies this`told, this`refreshed, controllerMap[id]
      ensures ok <==> r.shownOk && r.poweredOk
      ensures controllerMap[id].power == old(controllerMap[id].power) + [BeginCall(target), EndCall(target)]
      ensures controllerMap[id].state == if ok then target else old(controllerMap[id].state)
      ensures told == old(told)[Low32(id) := if ok then target else old(controllerMap[id].state)]
      ensures refreshed == if ok && target == On then old(refreshed) + [Low32(id)]
                           else if !ok && (old(controllerMap[id].state) == On || old(controllerMap[id].state) == Dim)
                           then old(refreshed) + [0] else old(refreshed)
    {
      var controller := controllerMap[id];
      told := told[Low32(id) := target];
      var refresh;
      ok, refresh := controller.UpdateMultiScreenState(target, reason, r);
      if refresh {
        refreshed := refreshed + [Low32(id)];
      }
      if !ok {
        UndoSetDisplayState(id, controller.state);
        assert told == old(told)[Low32(id) := controller.state];
      }
    }

    /** Where only one controller and its log have changed, only that screen has. */
    twostate lemma OneScreenChanges(id: uint64)
      requires old(Valid()) && Valid() && id in controllerMap && controllerMap == old(controllerMap)
      requires notified == old(notified)[id := notified[id]]
      requires forall other :: other in controllerMap && other != id ==> unchanged(controllerMap[other])
      ensures State().screens == old(State()).screens[id := ScreenOf(id)]
    {
      ghost var v, w := State().screens, old(State()).screens;
      assert v.Keys == w.Keys + {id};
      forall other | other in v && other != id ensures v[other] == w[other] {
        assert unchanged(controllerMap[other]);
      }
      assert v == w[id := v[id]];
    }

    /** Changes the screen, and tells the callbacks if that succeeded. */
    method ChangeAndNotify(id: uint64, target: DisplayState, reason: uint32, r: Answers)
      returns (ok: bool, delivered: seq<Callback>)
      requires Valid() && callbacks.Valid()
      requires id in controllerMap && controllerMap[id].state != target && IsTarget(target)
      modifies this`told, this`refreshed, this`notified, controllerMap[id]
      ensures Valid() && (ok <==> r.shownOk && r.poweredOk)
      ensures controllerMap[id].power == old(controllerMap[id].power) + [BeginCall(target), EndCall(target)]
      ensures controllerMap[id].state == if ok then target else old(controllerMap[id].state)
      ensures told == old(told)[Low32(id) := if ok then target else old(controllerMap[id].state)]
      ensures refreshed == if ok && target == On then old(refreshed) + [Low32(id)]
                           else if !ok && (old(controllerMap[id].state) == On || old(controllerMap[id].state) == Dim)
                           then old(refreshed) + [0] else old(refreshed)
      ensures notified == old(notified)[id := if ok then old(notified)[id] + [target] else old(notified)[id]]
      ensures forall c :: multiset(delivered)[c] == if ok then Interest(callbacks.Pairs(), c, id) else 0
    {
      delivered := [];
      ok := Change(id, target, reason, r);
      if ok {
        delivered := NotifyMultiScreenStateChanged(id, target);
      }
    }

    method Perform(id: uint64, target: DisplayState, reason: uint32, r: Answers)
      returns (error: DisplayError, delivered: seq<Callback>)
      requires Valid() && callbacks.Valid()
      requires id in controllerMap && controllerMap[id].state != target && IsTarget(target)
      modifies this`told, this`refreshed, this`notified, controllerMap[id]
      ensures Valid() && State() == Requested(old(State()), id, target, r)
      ensures error == if r.shownOk && r.poweredOk then Ok else StateChangeFailed
      ensures forall c :: multiset(delivered)[c] == if error == Ok then Interest(callbacks.Pairs(), c, id) else 0
    {
      ghost var was := State();
      var ok;
      ok, delivered := ChangeAndNotify(id, target, reason, r);
      OneScreenChanges(id);
      RequestedIs(was, id, target, r, State());
      error := if ok then Ok else StateChangeFailed;
    }

    /** Only On and Off, and names of bounded length, are accepted; callbacks hear of a change that succeeded. */
    method SetMultiScreenDisplayState(id: uint64, name: string, target: DisplayState, reason: uint32, r: Answers)
      returns (error: DisplayError, delivered: seq<Callback>)
      requires Valid() && callbacks.Valid()
      modifies this, controllerMap.Values
      ensures Valid() && callbacks.Valid()
      ensures !IsTarget(target) || |name| > MAX_SCREEN_NAME_LENGTH ==>
                error == ParamInvalid && delivered == [] && State() == old(State())
      ensures IsTarget(target) && |name| <= MAX_SCREEN_NAME_LENGTH ==>
                var was := WithScreen(old(State()), id).screens[id].state;
                && State() == Requested(old(State()), id, target, r)
                && error == (if was == target || (r.shownOk && r.poweredOk) then Ok else StateChangeFailed)
                && forall c :: multiset(delivered)[c] ==
                     if was != target && error == Ok then Interest(callbacks.Pairs(), c, id) else 0
    {
      delivered := [];
      if target != On && target != Off {
        return ParamInvalid, [];
      }
      if |name| > MAX_SCREEN_NAME_LENGTH {
        return ParamInvalid, [];
      }
      var controller := Controller(id);
      if controller.state == target {
        return Ok, [];
      }
      error, delivered := Perform(id, target, reason, r);
    }
  }
}
