/** Who is told about multi-screen state changes (multi_screen_display_state_callback_manager.cpp). */
module CallbackRegistries {
  import opened Common

  const DISPLAY_ID_ALL: uint64 := TWO_TO_THE_64 - 1

  /** A remote callback object; a null pointer is `None`. */
  type Callback = nat

  datatype Registration = Registration(callback: Callback, displayId: uint64)

  datatype Process = Process(pid: int, uid: int)

  // ---------- the registry as a set of pairs ----------

  ghost predicate Knows(pairs: set<Registration>, callback: Callback) {
    exists p :: p in pairs && p.callback == callback
  }

  lemma OthersStayKnown(pairs: set<Registration>, gone: Registration, callback: Callback)
    requires callback != gone.callback
    ensures Knows(pairs - {gone}, callback) == Knows(pairs, callback)
  {
    if Knows(pairs, callback) {
      var p :| p in pairs && p.callback == callback;
      assert p in pairs - {gone};
    }
  }

  /** A first registration needs a proxy object; later ones of the same callback do not. */
  ghost predicate Accepts(pairs: set<Registration>, callback: Option<Callback>, isProxy: bool) {
    callback.Some? && (Knows(pairs, callback.value) || isProxy)
  }

  ghost function Registered(pairs: set<Registration>, callback: Option<Callback>, id: uint64, isProxy: bool)
    : set<Registration>
  {
    if Accepts(pairs, callback, isProxy) then pairs + {Registration(callback.value, id)} else pairs
  }

  ghost function Without(pairs: set<Registration>, callback: Option<Callback>): set<Registration> {
    set p | p in pairs && Some(p.callback) != callback
  }

  ghost function Unregistered(pairs: set<Registration>, callback: Option<Callback>, id: uint64): set<Registration> {
    if id == DISPLAY_ID_ALL then Without(pairs, callback)
    else set p | p in pairs && !(Some(p.callback) == callback && p.displayId == id)
  }

  /** A null callback and a stranger that is no proxy are turned away; any other is registered, another time freely. */
  lemma StrangersNeedProxy(pairs: set<Registration>, callback: Option<Callback>, id: uint64, isProxy: bool)
    ensures var after, known := Registered(pairs, callback, id, isProxy),
                                exists p :: p in pairs && Some(p.callback) == callback;
            if callback == None || (!known && !isProxy) then after == pairs
            else
              var p := Registration(callback.value, id);
              p in after && after - {p} <= pairs <= after
  {
    if p :| p in pairs && Some(p.callback) == callback {
      assert Knows(pairs, callback.value);
    }
  }

  /** How many of a callback's registrations ask for this display. */
  ghost function Interest(pairs: set<Registration>, callback: Callback, id: uint64): nat {
    (if Registration(callback, id) in pairs then 1 else 0) +
    (if id != DISPLAY_ID_ALL && Registration(callback, DISPLAY_ID_ALL) in pairs then 1 else 0)
  }

  class MultiScreenDisplayStateCallbackManager {
    var callbacks: seq<Registration>
    var deathRecipients: map<Callback, nat>
    var callbackPidUidMap: map<Callback, Process>
    /** Which death recipients are attached to which remote objects. */
    var attached: set<(Callback, nat)>
    var nextRecipient: nat

    ghost function Pairs(): set<Registration>
      reads this
    {
      set p | p in callbacks
    }

    /** No pair twice; exactly the callbacks with a pair have an owner and one attached death recipient. */
    ghost predicate Valid()
      reads this
    {
      && (forall i, j :: 0 <= i < j < |callbacks| ==> callbacks[i] != callbacks[j])
      && (forall c :: c in deathRecipients <==> Knows(Pairs(), c))
      && callbackPidUidMap.Keys == deathRecipients.Keys
      && (forall c, d :: (c, d) in attached <==> c in deathRecipients && deathRecipients[c] == d)
      && (forall c :: c in deathRecipients ==> deathRecipients[c] < nextRecipient)
    }

    constructor ()
      ensures Valid() && Pairs() == {}
    {
      callbacks, deathRecipients, callbackPidUidMap, attached, nextRecipient := [], map[], map[], {}, 0;
    }

    method Find(callback: Callback, displayId: uint64) returns (index: nat, known: bool)
      ensures index <= |callbacks|
      ensures index < |callbacks| <==> Registration(callback, displayId) in Pairs()
      ensures index < |callbacks| ==> callbacks[index] == Registration(callback, displayId)
      ensures index == |callbacks| ==> (known <==> Knows(Pairs(), callback))
    {
      index, known := 0, false;
      while index < |callbacks|
        invariant 0 <= index <= |callbacks|
        invariant forall i :: 0 <= i < index ==> callbacks[i] != Registration(callback, displayId)
        invariant known <==> exists i :: 0 <= i < index && callbacks[i].callback == callback
      {
        if callbacks[index].callback == callback {
          known := true;
          if callbacks[index].displayId == displayId {
            return;
          }
        }
        index := index + 1;
      }
      if known {
        var i :| 0 <= i < index && callbacks[i].callback == callback;
        assert callbacks[i] in Pairs();
      }
    }

    /** `isProxy`, `caller` come from the calling process. */
    method Register(callback: Option<Callback>, displayId: uint64, isProxy: bool, caller: Process)
      returns (accepted: bool)
      requires Valid()
      modifies this
      ensures Valid() && Pairs() == Registered(old(Pairs()), callback, displayId, isProxy)
      ensures accepted <==> Accepts(old(Pairs()), callback, isProxy)
    {
      if callback == None {
        return false;
      }
      var index, known := Find(callback.value, displayId);
      if index < |callbacks| {
        assert callbacks[index] in Pairs();
        return true;
      }
      if !known {
        if !isProxy {
          return false;
        }
        Attach(callback.value, caller);
      }
      callbacks := callbacks + [Registration(callback.value, displayId)];
      assert Registration(callback.value, displayId) in Pairs();
      assert Pairs() == old(Pairs()) + {Registration(callback.value, displayId)};
      return true;
    }

    /** Attaches a fresh death recipient and remembers the owner. */
    method Attach(callback: Callback, caller: Process)
      modifies this`attached, this`deathRecipients, this`callbackPidUidMap, this`nextRecipient
      ensures attached == old(attached) + {(callback, old(nextRecipient))}
      ensures deathRecipients == old(deathRecipients)[callback := old(nextRecipient)]
      ensures callbackPidUidMap == old(callbackPidUidMap)[callback := caller]
      ensures nextRecipient == old(nextRecipient) + 1
    {
      attached := attached + {(callback, nextRecipient)};
      deathRecipients := deathRecipients[callback := nextRecipient];
      callbackPidUidMap := callbackPidUidMap[callback := caller];
      nextRecipient := nextRecipient + 1;
    }

    /** Detaches the death recipient and forgets the owner of a callback without registrations. */
    method Release(callback: Callback)
      modifies this`attached, this`deathRecipients, this`callbackPidUidMap
      ensures deathRecipients == old(deathRecipients) - {callback}
      ensures callbackPidUidMap == old(callbackPidUidMap) - {callback}
      ensures attached == if callback in old(deathRecipients)
                          then old(attached) - {(callback, old(deathRecipients)[callback])} else old(attached)
    {
      if callback in deathRecipients {
        attached := attached - {(callback, deathRecipients[callback])};
        deathRecipients := deathRecipients - {callback};
      }
      callbackPidUidMap := callbackPidUidMap - {callback};
    }

    method Unregister(callback: Option<Callback>, displayId: uint64) returns (done: bool)
      requires Valid()
      modifies this
      ensures Valid() && Pairs() == Unregistered(old(Pairs()), callback, displayId)
      ensures done <==> callback.Some?
    {
      if callback == None {
        return false;
      }
      if displayId == DISPLAY_ID_ALL {
        done := RemoveAll(callback);
        return;
      }
      var index, _ := Find(callback.value, displayId);
      if index < |callbacks| {
        EraseAndRelease(index);
      }
      return true;
    }

    /** Takes one entry out; the last one of a callback releases it. */
    method EraseAndRelease(index: nat)
      requires Valid() && index < |callbacks|
      modifies this
      ensures Valid() && Pairs() == old(Pairs()) - {old(callbacks[index])}
    {
      var callback := callbacks[index].callback;
      ghost var was, gone := Pairs(), callbacks[index];
      Erase(index);
      forall c | c != callback ensures Knows(Pairs(), c) == Knows(was, c) {
        OthersStayKnown(was, gone, c);
      }
      assert forall c :: Knows(Pairs(), c) ==> Knows(was, c);
      var known := Holds(callback);
      if !known {
        Release(callback);
      }
    }

    /** Takes one entry out of the list. */
    method Erase(index: nat)
      requires index < |callbacks| && forall i, j :: 0 <= i < j < |callbacks| ==> callbacks[i] != callbacks[j]
      modifies this`callbacks
      ensures forall i, j :: 0 <= i < j < |callbacks| ==> callbacks[i] != callbacks[j]
      ensures Pairs() == old(Pairs()) - {old(callbacks[index])}
    {
      ghost var was := callbacks;
      callbacks := callbacks[..index] + callbacks[index + 1..];
      assert forall i :: 0 <= i < |callbacks| ==> callbacks[i] == was[if i < index then i else i + 1];
      forall p | p in was && p != was[index] ensures p in callbacks {
        var i :| 0 <= i < |was| && was[i] == p;
        assert callbacks[if i < index then i else i - 1] == p;
      }
    }

    method Holds(callback: Callback) returns (known: bool)
      ensures known <==> Knows(Pairs(), callback)
    {
      known := false;
      var i := 0;
      while i < |callbacks| && !known
        invariant 0 <= i <= |callbacks|
        invariant !known ==> forall j :: 0 <= j < i ==> callbacks[j].callback != callback
        invariant known ==> Knows(Pairs(), callback)
      {
        if callbacks[i].callback == callback {
          assert callbacks[i] in Pairs();
          known := true;
        }
        i := i + 1;
      }
    }

    method RemoveAll(callback: Option<Callback>) returns (done: bool)
      requires Valid()
      modifies this
      ensures Valid() && Pairs() == Without(old(Pairs()), callback)
      ensures done <==> callback.Some?
    {
      if callback == None {
        return false;
      }
      var count := EraseAll(callback.value);
      if count > 0 {
        Release(callback.value);
      }
      return true;
    }

    /** Takes out every entry of a callback and says how many there were. */
    method EraseAll(callback: Callback) returns (count: nat)
      requires forall i, j :: 0 <= i < j < |callbacks| ==> callbacks[i] != callbacks[j]
      modifies this`callbacks
      ensures forall i, j :: 0 <= i < j < |callbacks| ==> callbacks[i] != callbacks[j]
      ensures Pairs() == Without(old(Pairs()), Some(callback))
      ensures count == 0 <==> !Knows(old(Pairs()), callback)
    {
      var kept: seq<Registration> := [];
      var i := 0;
      count := 0;
      while i < |callbacks|
        invariant 0 <= i <= |callbacks|
        invariant forall p :: p in kept <==> p in callbacks[..i] && p.callback != callback
        invariant forall a, b :: 0 <= a < b < |kept| ==> kept[a] != kept[b]
        invariant count == 0 <==> forall j :: 0 <= j < i ==> callbacks[j].callback != callback
      {
        assert callbacks[..i + 1] == callbacks[..i] + [callbacks[i]];
        if callbacks[i].callback == callback {
          count := count + 1;
        } else {
          assert callbacks[i] !in callbacks[..i];
          kept := kept + [callbacks[i]];
        }
        i := i + 1;
      }
      assert callbacks[..i] == callbacks;
      callbacks := kept;
    }

    /** Walks a copy of the registrations; each callback hears once per registration that asks for the display. */
    method Notify(displayId: uint64) returns (delivered: seq<Callback>)
      requires Valid()
      ensures forall c :: multiset(delivered)[c] == Interest(Pairs(), c, displayId)
    {
      delivered := [];
      var i := 0;
      while i < |callbacks|
        invariant 0 <= i <= |callbacks|
        invariant forall c :: multiset(delivered)[c] == Interest((set p | p in callbacks[..i]), c, displayId)
      {
        var entry := callbacks[i];
        assert callbacks[..i + 1] == callbacks[..i] + [entry];
        assert entry !in callbacks[..i];
        if entry.displayId == displayId || entry.displayId == DISPLAY_ID_ALL {
          delivered := delivered + [entry.callback];
        }
        i := i + 1;
      }
      assert callbacks[..i] == callbacks;
    }
  }

  // ---------- runs ----------

  datatype RegistryOp =
    | Register(callback: Callback, displayId: uint64)
    | Unregister(callback: Callback, displayId: uint64)
    | RemoveAll(callback: Callback)

  /** `proxies` are the callback objects that live in another process. */
  ghost function Apply(pairs: set<Registration>, proxies: set<Callback>, op: RegistryOp): set<Registration> {
    match op
    case Register(callback, id) => Registered(pairs, Some(callback), id, callback in proxies)
    case Unregister(callback, id) => Unregistered(pairs, Some(callback), id)
    case RemoveAll(callback) => Without(pairs, Some(callback))
  }

  ghost function After(proxies: set<Callback>, ops: seq<RegistryOp>): set<Registration> {
    if ops == [] then {} else Apply(After(proxies, ops[..|ops| - 1]), proxies, ops[|ops| - 1])
  }

  ghost predicate Removes(op: RegistryOp, p: Registration) {
    match op
    case Register(_, _) => false
    case Unregister(callback, id) => callback == p.callback && (id == p.displayId || id == DISPLAY_ID_ALL)
    case RemoveAll(callback) => callback == p.callback
  }

  /** The pair was registered, and nothing since then took it out. */
  ghost predicate RegisteredLast(ops: seq<RegistryOp>, p: Registration) {
    exists i :: 0 <= i < |ops| && RegisteredAt(ops, p, i)
  }

  ghost predicate RegisteredAt(ops: seq<RegistryOp>, p: Registration, i: nat)
    requires i < |ops|
  {
    ops[i] == Register(p.callback, p.displayId) && forall j :: i < j < |ops| ==> !Removes(ops[j], p)
  }

  lemma RegisteredLastStep(ops: seq<RegistryOp>, p: Registration)
    requires ops != []
    ensures RegisteredLast(ops, p) <==>
            var op := ops[|ops| - 1];
            op == Register(p.callback, p.displayId) || (!Removes(op, p) && RegisteredLast(ops[..|ops| - 1], p))
  {
    var n := |ops| - 1;
    var front := ops[..n];
    if ops[n] == Register(p.callback, p.displayId) {
      assert RegisteredAt(ops, p, n);
    }
    if !Removes(ops[n], p) && RegisteredLast(front, p) {
      var i :| 0 <= i < n && RegisteredAt(front, p, i);
      assert RegisteredAt(ops, p, i);
    }
    if RegisteredLast(ops, p) && ops[n] != Register(p.callback, p.displayId) {
      var i :| 0 <= i < |ops| && RegisteredAt(ops, p, i);
      assert RegisteredAt(front, p, i);
    }
  }

  /** After any run, exactly those pairs of proxies are registered that were registered and not removed since. */
  lemma {:induction false} RegistryTellsHistory(proxies: set<Callback>, ops: seq<RegistryOp>, p: Registration)
    ensures p in After(proxies, ops) <==> p.callback in proxies && RegisteredLast(ops, p)
    ensures forall q :: q in After(proxies, ops) ==> q.callback in proxies
    decreases |ops|
  {
    if ops != [] {
      RegistryTellsHistory(proxies, ops[..|ops| - 1], p);
      RegisteredLastStep(ops, p);
    }
  }

  /**
   * After any run a callback hears of a screen once for each standing registration of a proxy, made for that
   * screen or for the id that means every screen, and hears nothing else.
   */
  lemma HearsWhatItRegistered(proxies: set<Callback>, ops: seq<RegistryOp>, callback: Callback, id: uint64)
    ensures var all := 0xFFFF_FFFF_FFFF_FFFF;
            Interest(After(proxies, ops), callback, id) ==
            if callback !in proxies then 0
            else
              (if RegisteredLast(ops, Registration(callback, id)) then 1 else 0) +
              (if id != all && RegisteredLast(ops, Registration(callback, all)) then 1 else 0)
  {
    RegistryTellsHistory(proxies, ops, Registration(callback, id));
    RegistryTellsHistory(proxies, ops, Registration(callback, DISPLAY_ID_ALL));
  }

  /** Registering a new pair and unregistering it leaves the registry as it was. */
  lemma UnregisterUndoesRegister(pairs: set<Registration>, callback: Callback, id: uint64, isProxy: bool)
    requires Registration(callback, id) !in pairs && (id != DISPLAY_ID_ALL || !Knows(pairs, callback))
    ensures Unregistered(Registered(pairs, Some(callback), id, isProxy), Some(callback), id) == pairs
  {
  }

  /** A callback whose registrations are gone hears nothing, whatever the display. */
  lemma RemovedHearsNothing(pairs: set<Registration>, callback: Callback, id: uint64)
    ensures Interest(Without(pairs, Some(callback)), callback, id) == 0
    ensures forall c :: c != callback ==> Interest(Without(pairs, Some(callback)), c, id) == Interest(pairs, c, id)
  {
  }
}
