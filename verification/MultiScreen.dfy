/**
 * Switching many screens on and off (display_power_mgr_service.cpp, screen_controller.cpp):
 * requests on different screens interleave, requests on one screen exclude each other.
 */
module MultiScreens {
  import opened Common

  /** The calls that bracket a change of screen power. */
  datatype PowerCall = WakeUpBegin | WakeUpEnd | SuspendBegin | SuspendEnd

  /** How far the request that holds a screen's lock has come. */
  datatype Phase =
    | Idle
    | Told(target: DisplayState)                                    // brightness manager was told the target
    | Begun(target: DisplayState)                                   // begin was announced
    | Shown(target: DisplayState, shownOk: bool)                    // display state was requested
    | Powered(target: DisplayState, shownOk: bool, poweredOk: bool) // screen power was requested
    | Ended(target: DisplayState, ok: bool)                         // end was announced
    | Cached(target: DisplayState)                                  // the new state is stored

  /** `notified` are the states the callbacks were told, oldest first. */
  datatype Screen = Screen(state: DisplayState, phase: Phase, notified: seq<DisplayState>, power: seq<PowerCall>)

  /**
   * `told` is what the brightness manager was last told for each of its 32-bit screen ids,
   * `refreshed` the ids whose screen-on brightness it was asked to apply.
   */
  datatype World = World(screens: map<uint64, Screen>, told: map<uint32, DisplayState>, refreshed: seq<uint32>)

  const NEW_SCREEN := Screen(Unknown, Idle, [], [])
  const EMPTY_WORLD := World(map[], map[], [])

  /** The brightness manager addresses screens by the low half of their id. */
  function Low32(id: uint64): uint32 {
    id % TWO_TO_THE_32
  }

  predicate IsTarget(state: DisplayState) {
    state == On || state == Off
  }

  function BeginCall(target: DisplayState): PowerCall {
    if target == On then WakeUpBegin else SuspendBegin
  }

  function EndCall(target: DisplayState): PowerCall {
    if target == On then WakeUpEnd else SuspendEnd
  }

  // ---------- atomic steps ----------

  datatype Action =
    | Ask(id: uint64, target: DisplayState)   // look up or create the screen, take its lock, compare states
    | Advance(id: uint64, ok: bool)           // the next call of the request that holds the lock
    | Query(id: uint64)                       // read a screen's state

  ghost function WithScreen(w: World, id: uint64): World {
    if id in w.screens then w else w.(screens := w.screens[id := NEW_SCREEN])
  }

  /** A request of the same state ends here; another one first tells the brightness manager. */
  ghost function Asked(w: World, id: uint64, target: DisplayState): World
    requires id in w.screens && w.screens[id].phase == Idle
  {
    var s := w.screens[id];
    if s.state == target then w
    else w.(screens := w.screens[id := s.(phase := Told(target))], told := w.told[Low32(id) := target])
  }

  ghost function Advanced(s: Screen, ok: bool): Screen {
    match s.phase
    case Idle => s
    case Told(target) => s.(phase := Begun(target), power := s.power + [BeginCall(target)])
    case Begun(target) => s.(phase := Shown(target, ok))
    case Shown(target, shownOk) => s.(phase := Powered(target, shownOk, ok))
    case Powered(target, shownOk, poweredOk) =>
      s.(phase := Ended(target, shownOk && poweredOk), power := s.power + [EndCall(target)])
    case Ended(target, true) => s.(phase := Cached(target), state := target)
    case Ended(target, false) => s.(phase := Idle)
    case Cached(target) => s.(phase := Idle, notified := s.notified + [target])
  }

  /** The undo tells the brightness manager the old state; a refresh it asks for goes to screen 0. */
  ghost function ToldAfter(w: World, id: uint64): map<uint32, DisplayState>
    requires id in w.screens
  {
    var s := w.screens[id];
    if s.phase.Ended? && !s.phase.ok then w.told[Low32(id) := s.state] else w.told
  }

  ghost function RefreshedAfter(w: World, id: uint64): seq<uint32>
    requires id in w.screens
  {
    var s := w.screens[id];
    if s.phase.Ended? && s.phase.ok && s.phase.target == On then w.refreshed + [Low32(id)]
    else if s.phase.Ended? && !s.phase.ok && (s.state == On || s.state == Dim) then w.refreshed + [0]
    else w.refreshed
  }

  /** An action whose lock is held by another request, or that has nothing to do, does nothing. */
  ghost function Step(w: World, a: Action): World {
    match a
    case Ask(id, target) =>
      if !IsTarget(target) then w
      else
        var v := WithScreen(w, id);
        if v.screens[id].phase == Idle then Asked(v, id, target) else v
    case Advance(id, ok) =>
      if id !in w.screens then w
      else World(w.screens[id := Advanced(w.screens[id], ok)], ToldAfter(w, id), RefreshedAfter(w, id))
    case Query(id) => WithScreen(w, id)
  }

  ghost function After(w: World, actions: seq<Action>): World {
    if actions == [] then w else Step(After(w, actions[..|actions| - 1]), actions[|actions| - 1])
  }

  // ---------- what holds of every screen ----------

  ghost function Last(notified: seq<DisplayState>): DisplayState {
    if notified == [] then Unknown else notified[|notified| - 1]
  }

  ghost predicate NoRepeats(notified: seq<DisplayState>) {
    forall i :: 0 < i < |notified| ==> notified[i - 1] != notified[i]
  }

  ghost predicate Matching(first: PowerCall, second: PowerCall) {
    (first == WakeUpBegin && second == WakeUpEnd) || (first == SuspendBegin && second == SuspendEnd)
  }

  /** Every begin is directly followed by its own end. */
  ghost predicate Bracketed(power: seq<PowerCall>) {
    |power| % 2 == 0 && forall i :: 0 <= 2 * i < |power| ==> Matching(power[2 * i], power[2 * i + 1])
  }

  ghost predicate InBracket(phase: Phase) {
    phase.Begun? || phase.Shown? || phase.Powered?
  }

  ghost predicate ScreenInvariant(s: Screen) {
    && (s.state == Unknown || IsTarget(s.state))
    && NoRepeats(s.notified) && (s.notified != [] ==> s.notified[0] != Unknown)
    && (s.phase != Idle ==> IsTarget(s.phase.target))
    && (if s.phase.Cached? then s.state == s.phase.target && Last(s.notified) != s.state
        else Last(s.notified) == s.state && (s.phase != Idle ==> s.phase.target != s.state))
    && (if InBracket(s.phase)
        then s.power != [] && s.power[|s.power| - 1] == BeginCall(s.phase.target)
             && Bracketed(s.power[..|s.power| - 1])
        else Bracketed(s.power))
  }

  /** What the brightness manager should have been told of a screen last. */
  ghost function Expected(s: Screen): DisplayState {
    if s.phase == Idle || s.phase.Cached? then s.state else s.phase.target
  }

  ghost predicate Agrees(w: World, id: uint64)
    requires id in w.screens
  {
    var s, low := w.screens[id], Low32(id);
    if low in w.told then w.told[low] == Expected(s) else s.state == Unknown && s.phase == Idle
  }

  ghost predicate Distinct(ids: set<uint64>) {
    forall a, b :: a in ids && b in ids && Low32(a) == Low32(b) ==> a == b
  }

  ghost predicate WorldInvariant(w: World) {
    forall id :: id in w.screens ==> ScreenInvariant(w.screens[id])
  }

  ghost predicate Agreement(w: World) {
    forall id :: id in w.screens ==> Agrees(w, id)
  }

  ghost predicate ToldOnlyScreens(w: World) {
    forall low :: low in w.told ==> exists id :: id in w.screens && Low32(id) == low
  }

  lemma BracketGrows(power: seq<PowerCall>, target: DisplayState)
    requires Bracketed(power)
    ensures Bracketed(power + [BeginCall(target), EndCall(target)])
  {
    var longer := power + [BeginCall(target), EndCall(target)];
    forall i | 0 <= 2 * i < |longer| ensures Matching(longer[2 * i], longer[2 * i + 1]) {
      if 2 * i < |power| {
        assert Matching(power[2 * i], power[2 * i + 1]);
      }
    }
  }

  lemma AdvancedKeepsInvariant(s: Screen, ok: bool)
    requires ScreenInvariant(s)
    ensures ScreenInvariant(Advanced(s, ok))
  {
    match s.phase
    case Told(target) =>
      assert (s.power + [BeginCall(target)])[..|s.power|] == s.power;
    case Powered(target, _, _) =>
      var before := s.power[..|s.power| - 1];
      BracketGrows(before, target);
      assert s.power + [EndCall(target)] == before + [BeginCall(target), EndCall(target)];
    case _ =>
  }

  lemma StepKeepsInvariant(w: World, a: Action)
    requires WorldInvariant(w)
    ensures WorldInvariant(Step(w, a))
  {
    match a
    case Advance(id, ok) =>
      if id in w.screens {
        AdvancedKeepsInvariant(w.screens[id], ok);
      }
    case _ =>
  }

  lemma StepKeepsToldOnlyScreens(w: World, a: Action)
    requires ToldOnlyScreens(w)
    ensures ToldOnlyScreens(Step(w, a))
    ensures Step(w, a).screens.Keys <= w.screens.Keys + {a.id}
  {
    var v := Step(w, a);
    assert w.screens.Keys <= v.screens.Keys;
    forall low | low in v.told ensures exists id :: id in v.screens && Low32(id) == low {
      if low in w.told {
        var id :| id in w.screens && Low32(id) == low;
        assert id in v.screens;
      } else {
        assert a.id in v.screens && Low32(a.id) == low;
      }
    }
  }

  lemma CreatingKeepsAgreement(w: World, id: uint64)
    requires Agreement(w) && ToldOnlyScreens(w) && Distinct(w.screens.Keys + {id})
    ensures Agreement(WithScreen(w, id))
  {
  }

  lemma AdvancingAgrees(w: World, id: uint64, ok: bool)
    requires WorldInvariant(w) && id in w.screens && Agrees(w, id)
    ensures Agrees(Step(w, Advance(id, ok)), id)
  {
  }

  lemma AskingAgrees(w: World, id: uint64, target: DisplayState)
    requires id in w.screens && Agrees(w, id)
    ensures Agrees(Step(w, Ask(id, target)), id)
  {
  }

  lemma StepKeepsAgreement(w: World, a: Action)
    requires WorldInvariant(w) && Agreement(w) && ToldOnlyScreens(w) && Distinct(w.screens.Keys + {a.id})
    ensures Agreement(Step(w, a))
  {
    CreatingKeepsAgreement(w, a.id);
    var u, v := WithScreen(w, a.id), Step(w, a);
    assert Agrees(u, a.id);
    if a.id in v.screens {
      match a
      case Ask(id, target) => AskingAgrees(u, id, target);
      case Advance(id, ok) => AdvancingAgrees(w, id, ok);
      case Query(_) =>
    }
    forall id | id in v.screens && id != a.id ensures Agrees(v, id) {
      assert Low32(id) != Low32(a.id);
      assert Agrees(u, id);
    }
  }

  // ---------- runs ----------

  ghost function Ids(actions: seq<Action>): set<uint64> {
    set a | a in actions :: a.id
  }

  lemma {:induction false} RunKeepsInvariant(actions: seq<Action>)
    ensures WorldInvariant(After(EMPTY_WORLD, actions))
    ensures ToldOnlyScreens(After(EMPTY_WORLD, actions))
    ensures After(EMPTY_WORLD, actions).screens.Keys <= Ids(actions)
    decreases |actions|
  {
    if actions != [] {
      var front, a := actions[..|actions| - 1], actions[|actions| - 1];
      RunKeepsInvariant(front);
      StepKeepsInvariant(After(EMPTY_WORLD, front), a);
      StepKeepsToldOnlyScreens(After(EMPTY_WORLD, front), a);
      assert forall b :: b in front ==> b in actions;
      assert a in actions;
    }
  }

  /**
   * Over all interleavings: the callbacks of a screen never hear the same state twice in a row; between
   * requests they last heard the stored state; and every begin is closed by its own end.
   */
  lemma NotificationsFollowState(actions: seq<Action>, id: uint64)
    requires id in After(EMPTY_WORLD, actions).screens
    ensures var s := After(EMPTY_WORLD, actions).screens[id];
            && NoRepeats(s.notified)
            && (s.phase == Idle ==> Last(s.notified) == s.state && Bracketed(s.power))
  {
    RunKeepsInvariant(actions);
  }

  lemma {:induction false} RunKeepsAgreement(actions: seq<Action>)
    requires Distinct(Ids(actions))
    ensures Agreement(After(EMPTY_WORLD, actions))
    decreases |actions|
  {
    if actions != [] {
      var front, a := actions[..|actions| - 1], actions[|actions| - 1];
      assert Ids(front) <= Ids(actions) by {
        assert forall b :: b in front ==> b in actions;
      }
      assert a in actions;
      RunKeepsAgreement(front);
      RunKeepsInvariant(front);
      StepKeepsAgreement(After(EMPTY_WORLD, front), a);
    }
  }

  // ---------- a request that nothing interleaves with ----------

  /** What the calls of one request answer. */
  datatype Answers = Answers(shownOk: bool, poweredOk: bool)

  /** One whole request, as a single step. */
  ghost function Requested(w: World, id: uint64, target: DisplayState, r: Answers): World
    requires IsTarget(target) && (id in w.screens ==> w.screens[id].phase == Idle)
  {
    var v := WithScreen(w, id);
    var s := v.screens[id];
    if s.state == target then v
    else
      var power := s.power + [BeginCall(target), EndCall(target)];
      if r.shownOk && r.poweredOk then
        World(v.screens[id := Screen(target, Idle, s.notified + [target], power)], v.told[Low32(id) := target],
              if target == On then v.refreshed + [Low32(id)] else v.refreshed)
      else
        World(v.screens[id := s.(power := power)], v.told[Low32(id) := s.state],
              if s.state == On || s.state == Dim then v.refreshed + [0] else v.refreshed)
  }

  /** What a request that asks for another state leaves, field by field. */
  lemma RequestedIs(w: World, id: uint64, target: DisplayState, r: Answers, v: World)
    requires IsTarget(target) && id in w.screens && w.screens[id].phase == Idle && w.screens[id].state != target
    requires var s, ok := w.screens[id], r.shownOk && r.poweredOk;
             var power := s.power + [BeginCall(target), EndCall(target)];
             && v.screens == w.screens[id := if ok then Screen(target, Idle, s.notified + [target], power)
                                             else s.(power := power)]
             && v.told == w.told[Low32(id) := if ok then target else s.state]
             && v.refreshed == (if ok && target == On then w.refreshed + [Low32(id)]
                                else if !ok && (s.state == On || s.state == Dim) then w.refreshed + [0]
                                else w.refreshed)
    ensures v == Requested(w, id, target, r)
  {
  }

  /** The actions of one request, in order. */
  ghost function RequestActions(id: uint64, target: DisplayState, r: Answers): seq<Action> {
    [Ask(id, target), Advance(id, true), Advance(id, r.shownOk), Advance(id, r.poweredOk),
     Advance(id, true), Advance(id, true), Advance(id, true)]
  }

  lemma {:induction false} RunSplits(w: World, a: seq<Action>, b: seq<Action>)
    ensures After(w, a + b) == After(After(w, a), b)
    decreases |b|
  {
    if b == [] {
      assert a + b == a;
    } else {
      var n := |b| - 1;
      assert (a + b)[..|a + b| - 1] == a + b[..n];
      RunSplits(w, a, b[..n]);
    }
  }

  /** The state after asking and announcing the begin, the two calls, and announcing the end. */
  ghost function Announced(w: World, id: uint64, target: DisplayState, r: Answers): World {
    var begun := Step(Step(w, Ask(id, target)), Advance(id, true));
    Step(Step(Step(begun, Advance(id, r.shownOk)), Advance(id, r.poweredOk)), Advance(id, true))
  }

  lemma ActionNext(w: World, actions: seq<Action>, n: nat)
    requires n < |actions|
    ensures After(w, actions[..n + 1]) == Step(After(w, actions[..n]), actions[n])
  {
    assert actions[..n + 1][..n] == actions[..n];
  }

  lemma FirstTwo(w: World, a: seq<Action>)
    requires 2 <= |a|
    ensures After(w, a[..2]) == Step(Step(w, a[0]), a[1])
  {
    assert a[..0] == [];
    ActionNext(w, a, 0);
    ActionNext(w, a, 1);
  }

  lemma FirstFour(w: World, a: seq<Action>)
    requires 4 <= |a|
    ensures After(w, a[..4]) == Step(Step(Step(Step(w, a[0]), a[1]), a[2]), a[3])
  {
    FirstTwo(w, a);
    ActionNext(w, a, 2);
    ActionNext(w, a, 3);
  }

  lemma LastThree(w: World, a: seq<Action>)
    requires |a| == 7
    ensures After(w, a) == Step(Step(Step(After(w, a[..4]), a[4]), a[5]), a[6])
  {
    assert a[..7] == a;
    ActionNext(w, a, 4);
    ActionNext(w, a, 5);
    ActionNext(w, a, 6);
  }

  lemma SevenSteps(w: World, id: uint64, target: DisplayState, r: Answers)
    ensures After(w, RequestActions(id, target, r)) ==
            Step(Step(Announced(w, id, target, r), Advance(id, true)), Advance(id, true))
  {
    FirstFour(w, RequestActions(id, target, r));
    LastThree(w, RequestActions(id, target, r));
  }

  /** A world whose screen `id` is replaced. */
  ghost function With(w: World, id: uint64, s: Screen): World {
    w.(screens := w.screens[id := s])
  }

  lemma WithTwice(w: World, id: uint64, s: Screen, t: Screen)
    ensures With(With(w, id, s), id, t) == With(w, id, t)
  {
    assert w.screens[id := s][id := t] == w.screens[id := t];
  }

  lemma AdvanceWith(w: World, id: uint64, s: Screen, ok: bool)
    requires !s.phase.Ended?
    ensures Step(With(w, id, s), Advance(id, ok)) == With(w, id, Advanced(s, ok))
  {
    WithTwice(w, id, s, Advanced(s, ok));
  }

  lemma AnnouncedMeans(w: World, id: uint64, target: DisplayState, r: Answers)
    requires IsTarget(target) && (id in w.screens ==> w.screens[id].phase == Idle)
    requires WithScreen(w, id).screens[id].state != target
    ensures var v := WithScreen(w, id);
            var s := v.screens[id];
            Announced(w, id, target, r) ==
            With(v.(told := v.told[Low32(id) := target]), id, EndedScreen(s, target, r))
  {
    var v := WithScreen(w, id);
    var told := v.(told := v.told[Low32(id) := target]);
    var s1 := v.screens[id].(phase := Told(target));
    var s2 := Advanced(s1, true);
    var s3 := Advanced(s2, r.shownOk);
    var s4 := Advanced(s3, r.poweredOk);
    assert Step(w, Ask(id, target)) == With(told, id, s1);
    AdvanceWith(told, id, s1, true);
    AdvanceWith(told, id, s2, r.shownOk);
    AdvanceWith(told, id, s3, r.poweredOk);
    AdvanceWith(told, id, s4, true);
    assert s1.power + [BeginCall(target)] + [EndCall(target)] == s1.power + [BeginCall(target), EndCall(target)];
  }

  /** What becomes of a request whose end was announced, with nothing in between. */
  ghost function Finished(w: World, id: uint64, s: Screen): World
    requires s.phase.Ended?
  {
    var target := s.phase.target;
    if s.phase.ok then
      World(w.screens[id := Screen(target, Idle, s.notified + [target], s.power)], w.told,
            if target == On then w.refreshed + [Low32(id)] else w.refreshed)
    else
      World(w.screens[id := s.(phase := Idle)], w.told[Low32(id) := s.state],
            if s.state == On || s.state == Dim then w.refreshed + [0] else w.refreshed)
  }

  lemma LastStepsFinish(w: World, id: uint64, s: Screen)
    requires s.phase.Ended?
    ensures Step(Step(With(w, id, s), Advance(id, true)), Advance(id, true)) == Finished(w, id, s)
  {
    var v := Step(With(w, id, s), Advance(id, true));
    WithTwice(w, id, s, Advanced(s, true));
    var u := World(w.screens, v.told, v.refreshed);
    assert v == With(u, id, Advanced(s, true));
    AdvanceWith(u, id, Advanced(s, true), true);
  }

  ghost function EndedScreen(s: Screen, target: DisplayState, r: Answers): Screen {
    s.(phase := Ended(target, r.shownOk && r.poweredOk), power := s.power + [BeginCall(target), EndCall(target)])
  }

  lemma FinishedIsRequested(w: World, id: uint64, target: DisplayState, r: Answers)
    requires IsTarget(target) && (id in w.screens ==> w.screens[id].phase == Idle)
    requires WithScreen(w, id).screens[id].state != target
    ensures var v := WithScreen(w, id);
            Finished(v.(told := v.told[Low32(id) := target]), id, EndedScreen(v.screens[id], target, r)) ==
            Requested(w, id, target, r)
  {
    var v := WithScreen(w, id);
    var s := v.screens[id];
    assert v.told[Low32(id) := target][Low32(id) := s.state] == v.told[Low32(id) := s.state];
  }

  lemma SameStateSteps(w: World, id: uint64, target: DisplayState, r: Answers)
    requires IsTarget(target) && (id in w.screens ==> w.screens[id].phase == Idle)
    requires WithScreen(w, id).screens[id].state == target
    ensures Step(Step(Announced(w, id, target, r), Advance(id, true)), Advance(id, true)) == WithScreen(w, id)
  {
    var v := WithScreen(w, id);
    assert With(v, id, v.screens[id]) == v;
    assert forall ok :: Step(v, Advance(id, ok)) == v;
  }

  /** The fine-grained steps of an undisturbed request add up to the whole request. */
  lemma StepsMakeRequest(w: World, id: uint64, target: DisplayState, r: Answers)
    requires IsTarget(target) && (id in w.screens ==> w.screens[id].phase == Idle)
    ensures After(w, RequestActions(id, target, r)) == Requested(w, id, target, r)
  {
    SevenSteps(w, id, target, r);
    var v := WithScreen(w, id);
    if v.screens[id].state == target {
      SameStateSteps(w, id, target, r);
    } else {
      AnnouncedMeans(w, id, target, r);
      LastStepsFinish(v.(told := v.told[Low32(id) := target]), id, EndedScreen(v.screens[id], target, r));
      FinishedIsRequested(w, id, target, r);
    }
  }

  // ---------- when exactly the brightness manager agrees ----------

  /** Whatever is asked of these screens, the brightness manager was always told the state of each last. */
  ghost predicate AlwaysAgrees(ids: set<uint64>) {
    forall actions: seq<Action> :: Ids(actions) <= ids ==> Agreement(After(EMPTY_WORLD, actions))
  }

  /** Turning one screen on and then its alias off. */
  ghost function AliasRun(a: uint64, b: uint64): seq<Action> {
    RequestActions(a, On, Answers(true, true)) + RequestActions(b, Off, Answers(true, true))
  }

  /** Both requests succeed, and only the second is remembered under the shared id. */
  lemma AliasWorld(a: uint64, b: uint64)
    requires a != b && Low32(a) == Low32(b)
    ensures var yes := Answers(true, true);
            var v := Requested(Requested(EMPTY_WORLD, a, On, yes), b, Off, yes);
            a in v.screens && v.screens[a].state == On && v.screens[a].phase == Idle && v.told == map[Low32(a) := Off]
  {
  }

  lemma AliasesDisagree(a: uint64, b: uint64)
    requires a != b && Low32(a) == Low32(b)
    ensures !Agreement(After(EMPTY_WORLD, AliasRun(a, b)))
  {
    var yes := Answers(true, true);
    var w := Requested(EMPTY_WORLD, a, On, yes);
    RunSplits(EMPTY_WORLD, RequestActions(a, On, yes), RequestActions(b, Off, yes));
    StepsMakeRequest(EMPTY_WORLD, a, On, yes);
    StepsMakeRequest(w, b, Off, yes);
    AliasWorld(a, b);
    assert !Agrees(Requested(w, b, Off, yes), a);
  }

  lemma AliasRunIds(a: uint64, b: uint64)
    ensures Ids(AliasRun(a, b)) == {a, b}
  {
    assert AliasRun(a, b)[0].id == a && AliasRun(a, b)[7].id == b;
  }

  /** The brightness manager always agrees iff no two of the screens share the low half of their ids. */
  lemma AgreesExactlyWhen(ids: set<uint64>)
    ensures AlwaysAgrees(ids) <==>
            forall a, b :: a in ids && b in ids && a % 0x1_0000_0000 == b % 0x1_0000_0000 ==> a == b
  {
    if Distinct(ids) {
      forall actions: seq<Action> | Ids(actions) <= ids ensures Agreement(After(EMPTY_WORLD, actions)) {
        RunKeepsAgreement(actions);
      }
    } else {
      var a, b :| a in ids && b in ids && Low32(a) == Low32(b) && a != b;
      AliasesDisagree(a, b);
      AliasRunIds(a, b);
    }
  }

  // ---------- what one request leaves behind ----------

  ghost function CallsOf(target: DisplayState): seq<PowerCall> {
    if target == On then [WakeUpBegin, WakeUpEnd] else [SuspendBegin, SuspendEnd]
  }

  /** A request that succeeds stores its state, tells callbacks and brightness manager, and refreshes a lit screen. */
  lemma SuccessIsMade(w: World, id: uint64, target: DisplayState, r: Answers)
    requires (target == On || target == Off) && (id in w.screens ==> w.screens[id].phase == Idle)
    requires r.shownOk && r.poweredOk && WithScreen(w, id).screens[id].state != target
    ensures var s, v := WithScreen(w, id).screens[id], After(w, RequestActions(id, target, r));
            var low := id % 0x1_0000_0000;
            && v.screens == w.screens[id := Screen(target, Idle, s.notified + [target], s.power + CallsOf(target))]
            && v.told == w.told[low := target]
            && v.refreshed == w.refreshed + if target == On then [low] else []
  {
    var v := Requested(w, id, target, r);
    StepsMakeRequest(w, id, target, r);
    assert v.refreshed == w.refreshed + if target == On then [Low32(id)] else [];
  }

  /** A request for the state the screen has, or for one that is neither on nor off, makes no call at all. */
  lemma NeedlessRequestsPass(w: World, id: uint64, target: DisplayState, r: Answers)
    ensures target != On && target != Off ==> Step(w, Ask(id, target)) == w
    ensures (target == On || target == Off) && (id in w.screens ==> w.screens[id].phase == Idle)
            && WithScreen(w, id).screens[id].state == target ==>
              After(w, RequestActions(id, target, r)) == w
  {
    if IsTarget(target) && (id in w.screens ==> w.screens[id].phase == Idle) {
      StepsMakeRequest(w, id, target, r);
    }
  }

  /**
   * A failed request leaves every screen as it was, but for the calls it made, and tells the brightness manager
   * the old state again; that of a new screen is told for the first time then. The refresh it asks for when
   * the old state is lit goes to screen 0, so it reaches the failed screen only if that is its low half.
   */
  lemma FailureIsUndone(w: World, id: uint64, target: DisplayState, r: Answers)
    requires IsTarget(target) && (id in w.screens ==> w.screens[id].phase == Idle && Agrees(w, id))
    requires !(r.shownOk && r.poweredOk) && WithScreen(w, id).screens[id].state != target
    ensures var s, v := WithScreen(w, id).screens[id], Requested(w, id, target, r);
            && v.screens == w.screens[id := s.(power := s.power + [BeginCall(target), EndCall(target)])]
            && v.told == (if id in w.screens && Low32(id) in w.told then w.told else w.told[Low32(id) := Unknown])
            && v.refreshed == w.refreshed + (if s.state == On || s.state == Dim then [0] else [])
            && (|v.refreshed| > |w.refreshed| ==> (v.refreshed[|w.refreshed|] == Low32(id) <==> Low32(id) == 0))
  {
    var s, v := WithScreen(w, id).screens[id], Requested(w, id, target, r);
    assert v.screens == w.screens[id := s.(power := s.power + [BeginCall(target), EndCall(target)])];
    if id in w.screens && Low32(id) in w.told {
      assert w.told[Low32(id) := s.state] == w.told;
    }
  }
}
