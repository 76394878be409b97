/** The panel indicator (`TExtension`): its fields, the handlers that the
    main loop calls, and the bookkeeping that releases every bus
    subscription, connection and timer on teardown. Bus calls, signal
    connections and timer registrations are recorded in the ghost `log`;
    what they return (handler ids, subscription ids, the `Locked` reply) is
    passed in as a parameter. */
module Extension {
  import opened Effects
  import opened LockPolicy
  import Connections

  const SETTINGS_OBJECT := Emitter(0)
  const PANEL_BUTTON := Emitter(1)

  /** The cadence of the auto-lock timer. */
  const TICK_SECONDS: nat := 60

  /** The calls teardown makes after disconnecting the signal handlers,
      given which handles are still held: each is guarded by the handle
      being set. */
  function ReleaseCalls(watchId: nat, monitorOpen: bool, sessionOpen: bool, loopId: nat): (r: seq<Effect>)
    ensures r == [] <==> !monitorOpen && !sessionOpen && loopId == 0
  {
    Guarded(watchId != 0 && monitorOpen, Unsubscribe(watchId))
    + Guarded(sessionOpen, Close(SessionBus))
    + Guarded(monitorOpen, Close(MonitorBus))
    + Guarded(loopId != 0, RemoveSource(loopId))
  }

  /** Teardown releases each handle exactly when it is held, and none twice:
      the subscription only while the monitor connection it belongs to is
      open, each bus connection if open, the timer if registered. */
  lemma ReleaseCallsExactly(watchId: nat, monitorOpen: bool, sessionOpen: bool, loopId: nat)
    ensures var r := ReleaseCalls(watchId, monitorOpen, sessionOpen, loopId);
            && (Unsubscribe(watchId) in r <==> watchId != 0 && monitorOpen)
            && (Close(SessionBus) in r <==> sessionOpen)
            && (Close(MonitorBus) in r <==> monitorOpen)
            && (RemoveSource(loopId) in r <==> loopId != 0)
            && (forall x :: x in r ==> x in {Unsubscribe(watchId), Close(SessionBus), Close(MonitorBus), RemoveSource(loopId)})
            && (forall i, j :: 0 <= i < j < |r| ==> r[i] != r[j])
  {
  }

  /** Releasing handles neither connects nor disconnects a signal handler. */
  lemma ReleaseLeavesLiveAlone(log: seq<Effect>, watchId: nat, monitorOpen: bool, sessionOpen: bool, loopId: nat)
    ensures Connections.Live(log + ReleaseCalls(watchId, monitorOpen, sessionOpen, loopId)) == Connections.Live(log)
  {
    var r := ReleaseCalls(watchId, monitorOpen, sessionOpen, loopId);
    assert forall i :: 0 <= i < |r| ==> !r[i].Connect? && !r[i].Disconnect?;
    Connections.LiveIgnoresOtherEffects(log, r);
  }

  /** The three connections made on enabling leave one handler on the
      settings object and two on the panel button. */
  lemma StartupTable(settingsHandler: HandlerId, pressHandler: HandlerId, touchHandler: HandlerId)
    ensures Connections.Connect(Connections.Connect(Connections.Connect(map[], Some(SETTINGS_OBJECT), settingsHandler),
                                                    Some(PANEL_BUTTON), pressHandler),
                                Some(PANEL_BUTTON), touchHandler)
            == map[SETTINGS_OBJECT := {settingsHandler}, PANEL_BUTTON := {pressHandler, touchHandler}]
  {
    var t1 := Connections.Connect(map[], Some(SETTINGS_OBJECT), settingsHandler);
    var t2 := Connections.Connect(t1, Some(PANEL_BUTTON), pressHandler);
    var t3 := Connections.Connect(t2, Some(PANEL_BUTTON), touchHandler);
    var m := map[SETTINGS_OBJECT := {settingsHandler}, PANEL_BUTTON := {pressHandler, touchHandler}];
    assert t3.Keys == m.Keys;
    assert t3[SETTINGS_OBJECT] == t2[SETTINGS_OBJECT] == t1[SETTINGS_OBJECT] == {settingsHandler};
    assert t3[PANEL_BUTTON] == {pressHandler, touchHandler};
  }

  /** The calls enabling makes, in order: connect the show-indicator
      handler, declare monitor intent, subscribe to unlock completions,
      start the timer, query the lock state, connect the press and touch
      handlers. */
  function StartupLog(settingsHandler: HandlerId, watchId: nat, loopId: nat,
                      pressHandler: HandlerId, touchHandler: HandlerId): seq<Effect>
  {
    [Effects.Connect(Handler(SETTINGS_OBJECT, settingsHandler), ShowIndicatorChanged),
     Call(MonitorBus, BECOME_MONITOR),
     SubscribeUnlockCompleted(watchId),
     AddTimeout(loopId, TICK_SECONDS),
     Call(SessionBus, LOCKED_QUERY),
     Effects.Connect(Handler(PANEL_BUTTON, pressHandler), ButtonPressEvent),
     Effects.Connect(Handler(PANEL_BUTTON, touchHandler), TouchEvent)]
  }

  /** The effects of enabling leave live exactly the three handlers the
      table records. */
  lemma StartupMirrors(settingsHandler: HandlerId, watchId: nat, loopId: nat,
                       pressHandler: HandlerId, touchHandler: HandlerId)
    ensures Connections.Pairs(map[SETTINGS_OBJECT := {settingsHandler}, PANEL_BUTTON := {pressHandler, touchHandler}])
         == Connections.Live(StartupLog(settingsHandler, watchId, loopId, pressHandler, touchHandler))
  {
    var t0: Connections.Table := map[];
    var l0: seq<Effect> := [];
    assert Connections.Pairs(t0) == Connections.Live(l0);
    var settings := Effects.Connect(Handler(SETTINGS_OBJECT, settingsHandler), ShowIndicatorChanged);
    Connections.ConnectKeepsMirror(t0, l0, SETTINGS_OBJECT, settingsHandler, ShowIndicatorChanged);
    var t1 := Connections.Connect(t0, Some(SETTINGS_OBJECT), settingsHandler);
    var calls := [Call(MonitorBus, BECOME_MONITOR), SubscribeUnlockCompleted(watchId),
                  AddTimeout(loopId, TICK_SECONDS), Call(SessionBus, LOCKED_QUERY)];
    Connections.LiveIgnoresOtherEffects(l0 + [settings], calls);
    var l1 := l0 + [settings] + calls;
    Connections.ConnectKeepsMirror(t1, l1, PANEL_BUTTON, pressHandler, ButtonPressEvent);
    var t2 := Connections.Connect(t1, Some(PANEL_BUTTON), pressHandler);
    var l2 := l1 + [Effects.Connect(Handler(PANEL_BUTTON, pressHandler), ButtonPressEvent)];
    Connections.ConnectKeepsMirror(t2, l2, PANEL_BUTTON, touchHandler, TouchEvent);
    StartupTable(settingsHandler, pressHandler, touchHandler);
    assert l2 + [Effects.Connect(Handler(PANEL_BUTTON, touchHandler), TouchEvent)]
        == [settings, calls[0], calls[1], calls[2], calls[3],
            Effects.Connect(Handler(PANEL_BUTTON, pressHandler), ButtonPressEvent),
            Effects.Connect(Handler(PANEL_BUTTON, touchHandler), TouchEvent)];
  }

  /** The call `x`, if its guard holds. */
  function Guarded(guard: bool, x: Effect): seq<Effect> {
    if guard then [x] else []
  }

  lemma ReleaseCallsAppend(log: seq<Effect>, watchId: nat, monitorOpen: bool, sessionOpen: bool, loopId: nat)
    ensures log + ReleaseCalls(watchId, monitorOpen, sessionOpen, loopId)
         == log + Guarded(watchId != 0 && monitorOpen, Unsubscribe(watchId)) + Guarded(sessionOpen, Close(SessionBus))
            + Guarded(monitorOpen, Close(MonitorBus)) + Guarded(loopId != 0, RemoveSource(loopId))
  {
  }

  /** Whether `x` disconnects a handler of the table whose emitter is no
      longer among the `pending` ones. */
  ghost predicate Handled(x: Effect, t: Connections.Table, pending: set<Emitter>) {
    x.Disconnect? && x.handler.target in t && x.handler.id in t[x.handler.target] && x.handler.target !in pending
  }

  class AutoLockIndicator {
    var isLocked: bool
    var latestKeyringUnlock: int
    var glyph: Glyph
    var visible: bool
    var connections: Connections.Table
    var sessionOpen: bool
    var monitorOpen: bool
    var settingsPresent: bool
    var busWatchKeychainUnlockId: nat
    var lockLoopId: nat
    ghost var log: seq<Effect>

    /** The table records exactly the handlers that are still connected. */
    ghost predicate TableMirrorsLog()
      reads this
    {
      Connections.Pairs(connections) == Connections.Live(log)
    }

    ghost predicate Valid()
      reads this
    {
      && TableMirrorsLog()
      && glyph == GlyphFor(isLocked)
    }

    function State(): LockState
      reads this
    {
      LockState(isLocked, latestKeyringUnlock)
    }

    /** Enabling the extension. `now` is the construction time, which
        becomes the initial last-unlock time; the other parameters are what
        the settings and the bus hand back. The indicator is hidden before
        any bus call when the show-indicator setting is off, so its
        visibility is set along with the initial field values. */
    constructor (now: int, showIndicator: bool, settingsHandler: HandlerId, watchId: nat,
                 loopId: nat, lockedAtStart: bool, pressHandler: HandlerId, touchHandler: HandlerId)
      ensures Valid()
      ensures State() == LockState(lockedAtStart, now)
      ensures visible == showIndicator
      ensures connections == map[SETTINGS_OBJECT := {settingsHandler}, PANEL_BUTTON := {pressHandler, touchHandler}]
      ensures busWatchKeychainUnlockId == watchId && lockLoopId == loopId
      ensures sessionOpen && monitorOpen && settingsPresent
      ensures log == StartupLog(settingsHandler, watchId, loopId, pressHandler, touchHandler)
    {
      latestKeyringUnlock := now;
      isLocked := false;
      glyph := UnlockedIcon;
      visible := showIndicator;
      connections := map[];
      sessionOpen, monitorOpen, settingsPresent := false, false, true;
      busWatchKeychainUnlockId, lockLoopId := 0, 0;
      log := [];
      new;
      Connect(Some(SETTINGS_OBJECT), ShowIndicatorChanged, settingsHandler);
      OpenBusesAndTimer(watchId, loopId, lockedAtStart);
      Connect(Some(PANEL_BUTTON), ButtonPressEvent, pressHandler);
      Connect(Some(PANEL_BUTTON), TouchEvent, touchHandler);
      StartupTable(settingsHandler, pressHandler, touchHandler);
      assert log == StartupLog(settingsHandler, watchId, loopId, pressHandler, touchHandler);
      assert TableMirrorsLog() by {
        StartupMirrors(settingsHandler, watchId, loopId, pressHandler, touchHandler);
      }
    }

    /** The bus and timer part of enabling: open the monitor connection,
        declare monitor intent, subscribe to unlock completions, start the
        60-second timer, then query the login collection's lock state over
        the session bus and show it (`lockedAtStart` is the reply). The
        signal handlers are untouched. */
    method OpenBusesAndTimer(watchId: nat, loopId: nat, lockedAtStart: bool)
      modifies this`log, this`sessionOpen, this`monitorOpen, this`busWatchKeychainUnlockId, this`lockLoopId,
               this`isLocked, this`glyph
      ensures isLocked == lockedAtStart && glyph == GlyphFor(lockedAtStart)
      ensures sessionOpen && monitorOpen
      ensures busWatchKeychainUnlockId == watchId && lockLoopId == loopId
      ensures log == old(log) + [Call(MonitorBus, BECOME_MONITOR), SubscribeUnlockCompleted(watchId),
                                 AddTimeout(loopId, TICK_SECONDS), Call(SessionBus, LOCKED_QUERY)]
    {
      sessionOpen := true;
      monitorOpen := true;
      log := log + [Call(MonitorBus, BECOME_MONITOR)];
      busWatchKeychainUnlockId := watchId;
      log := log + [SubscribeUnlockCompleted(watchId)];
      lockLoopId := loopId;
      log := log + [AddTimeout(loopId, TICK_SECONDS)];
      log := log + [Call(SessionBus, LOCKED_QUERY)];
      isLocked := lockedAtStart;
      glyph := GlyphFor(isLocked);
    }

    /** The handler of the show-indicator setting. */
    method OnShowIndicatorChanged(show: bool)
      modifies this`visible
      ensures visible == show
    {
      visible := show;
    }

    /** The unlock-completion signal: unlocked as of `now`; nothing else changes. */
    method OnUnlockCompleted(now: int)
      requires Valid()
      modifies this`isLocked, this`latestKeyringUnlock, this`glyph
      ensures Valid()
      ensures State() == AfterUnlock(now)
      ensures glyph == UnlockedIcon
    {
      latestKeyringUnlock := now;
      isLocked := false;
      glyph := UnlockedIcon;
    }

    /** Calls LockService on the session bus and, once it has returned,
        records the keyring as locked. */
    method ForceLock()
      requires Valid() && sessionOpen
      modifies this`log, this`isLocked, this`glyph
      ensures Valid()
      ensures State() == AfterForceLock(old(State())).next
      ensures glyph == LockedIcon
      ensures log == old(log) + [Call(SessionBus, LOCK_SERVICE)]
    {
      log := log + [Call(SessionBus, LOCK_SERVICE)];
      Connections.LiveAppend(old(log), Call(SessionBus, LOCK_SERVICE));
      isLocked := true;
      glyph := LockedIcon;
    }

    /** A press or touch on the icon locks the keyring if it is unlocked. */
    method PressIcon()
      requires Valid() && (isLocked || sessionOpen)
      modifies this`log, this`isLocked, this`glyph
      ensures Valid()
      ensures State() == AfterPress(old(State())).next
      ensures log == old(log) + (if AfterPress(old(State())).callsLockService then [Call(SessionBus, LOCK_SERVICE)] else [])
    {
      if !isLocked {
        ForceLock();
      }
    }

    /** The timer callback. `now` is the clock and `toMax` the threshold in
        minutes, both read on this tick. */
    method OnTimeout(now: int, toMax: nat) returns (source: SourceControl)
      requires Valid()
      requires !isLocked ==> settingsPresent
      requires AfterTimeout(State(), now, toMax).outcome.callsLockService ==> sessionOpen
      modifies this`log, this`isLocked, this`glyph
      ensures Valid()
      ensures source == SourceContinue
      ensures State() == AfterTimeout(old(State()), now, toMax).outcome.next
      ensures log == old(log) + (if AfterTimeout(old(State()), now, toMax).outcome.callsLockService
                                 then [Call(SessionBus, LOCK_SERVICE)] else [])
    {
      if !isLocked {
        if toMax > 0 && now - latestKeyringUnlock >= toMax * MILLIS_PER_MINUTE {
          ForceLock();
        }
      }
      source := SourceContinue;
    }

    /** Connects a handler to `signal` of `target` (whose connect call
        returns `id`) and records it; an absent target is skipped. */
    method Connect(target: Option<Emitter>, signal: Signal, id: HandlerId)
      modifies this`connections, this`log
      ensures connections == Connections.Connect(old(connections), target, id)
      ensures log == old(log) + (if target.Some? then [Effects.Connect(Handler(target.value, id), signal)] else [])
    {
      if target.Some? {
        var e := target.value;
        // a fresh empty set for an emitter seen for the first time
        var ids := if e in connections then connections[e] else {};
        log := log + [Effects.Connect(Handler(e, id), signal)];
        connections := connections[e := ids + {id}];
      }
    }

    /** Disconnects every recorded handler exactly once, then clears the table. */
    method DisconnectAll() returns (ghost done: seq<Effect>)
      requires TableMirrorsLog()
      modifies this`connections, this`log
      ensures TableMirrorsLog()
      ensures connections == map[] && Connections.Live(log) == {}
      ensures log == old(log) + done
      ensures Connections.EachOnce(done, old(connections))
    {
      done := [];
      ghost var handled: set<Effect> := {};
      var targets := connections.Keys;
      while targets != {}
        invariant targets <= connections.Keys
        invariant connections == old(connections)
        invariant log == old(log) + done
        invariant multiset(done) == multiset(handled)
        invariant forall x :: x in handled <==> Handled(x, connections, targets)
        decreases targets
      {
        var target :| target in targets;
        targets := targets - {target};
        var ids := connections[target];
        while ids != {}
          invariant connections == old(connections)
          invariant target in connections && target !in targets && targets <= connections.Keys
          invariant ids <= connections[target]
          invariant log == old(log) + done
          invariant multiset(done) == multiset(handled)
          invariant forall x :: x in handled <==> Handled(x, connections, targets) && !(x.handler.target == target && x.handler.id in ids)
          decreases ids
        {
          var id :| id in ids;
          log := log + [Disconnect(Handler(target, id))];
          done := done + [Disconnect(Handler(target, id))];
          handled := handled + {Disconnect(Handler(target, id))};
          ids := ids - {id};
        }
      }
      Connections.DisconnectsOfExactly(old(connections), handled);
      Connections.TeardownLeavesNothingLive(old(log), done, old(connections));
      connections := map[];
    }

    /** Disabling the extension: disconnect every handler, then release the
        unlock subscription, both bus connections and the timer, each only
        if it is still held, and clear every handle. */
    method Destroy() returns (ghost disconnects: seq<Effect>)
      requires Valid()
      modifies this
      ensures Valid()
      ensures State() == old(State()) && glyph == old(glyph) && visible == old(visible)
      ensures connections == map[] && Connections.Live(log) == {}
      ensures busWatchKeychainUnlockId == 0 && lockLoopId == 0
      ensures !sessionOpen && !monitorOpen && !settingsPresent
      ensures Connections.EachOnce(disconnects, old(connections))
      ensures log == old(log) + disconnects
                     + ReleaseCalls(old(busWatchKeychainUnlockId), old(monitorOpen), old(sessionOpen), old(lockLoopId))
    {
      disconnects := DisconnectAll();
      ReleaseHandles();
    }

    /** The part of teardown after the signal handlers are gone: each
        handle is released only if set, then cleared. */
    method ReleaseHandles()
      modifies this`log, this`busWatchKeychainUnlockId, this`sessionOpen, this`monitorOpen,
               this`lockLoopId, this`settingsPresent
      ensures busWatchKeychainUnlockId == 0 && lockLoopId == 0
      ensures !sessionOpen && !monitorOpen && !settingsPresent
      ensures log == old(log) + ReleaseCalls(old(busWatchKeychainUnlockId), old(monitorOpen), old(sessionOpen), old(lockLoopId))
      ensures Connections.Live(log) == Connections.Live(old(log))
    {
      ghost var w, m, se, l := busWatchKeychainUnlockId, monitorOpen, sessionOpen, lockLoopId;
      if busWatchKeychainUnlockId != 0 && monitorOpen {
        log := log + [Unsubscribe(busWatchKeychainUnlockId)];
      }
      busWatchKeychainUnlockId := 0;
      assert log == old(log) + Guarded(w != 0 && m, Unsubscribe(w));
      ghost var l1 := log;
      if sessionOpen {
        log := log + [Close(SessionBus)];
      }
      sessionOpen := false;
      assert log == l1 + Guarded(se, Close(SessionBus));
      ghost var l2 := log;
      if monitorOpen {
        log := log + [Close(MonitorBus)];
      }
      monitorOpen := false;
      assert log == l2 + Guarded(m, Close(MonitorBus));
      ghost var l3 := log;
      if lockLoopId != 0 {
        log := log + [RemoveSource(lockLoopId)];
      }
      lockLoopId := 0;
      settingsPresent := false;
      assert log == l3 + Guarded(l != 0, RemoveSource(l));
      ReleaseCallsAppend(old(log), w, m, se, l);
      ReleaseLeavesLiveAlone(old(log), w, m, se, l);
    }
  }

  /** Disabling twice: the second teardown makes no call at all, so nothing
      is cancelled or closed twice. */
  method TeardownTwice(x: AutoLockIndicator) returns (ghost first: seq<Effect>)
    requires x.Valid()
    modifies x
    ensures x.Valid() && x.connections == map[]
    ensures Connections.EachOnce(first, old(x.connections))
    ensures x.log == old(x.log) + first
                     + ReleaseCalls(old(x.busWatchKeychainUnlockId), old(x.monitorOpen), old(x.sessionOpen), old(x.lockLoopId))
  {
    first := x.Destroy();
    ghost var second := x.Destroy();
    Connections.NothingToDisconnect(second);
  }

  /** Enabling, then disabling before any tick: no handler is left
      connected, and the timer and unlock subscription are released. */
  method DisableBeforeFirstTick(now: int, settingsHandler: HandlerId, watchId: nat, loopId: nat,
                                pressHandler: HandlerId, touchHandler: HandlerId)
    returns (x: AutoLockIndicator)
    requires watchId != 0 && loopId != 0
    ensures x.connections == map[] && Connections.Live(x.log) == {}
    ensures Unsubscribe(watchId) in x.log && RemoveSource(loopId) in x.log
    ensures Close(SessionBus) in x.log && Close(MonitorBus) in x.log
  {
    x := new AutoLockIndicator(now, true, settingsHandler, watchId, loopId, false, pressHandler, touchHandler);
    var _ := x.Destroy();
    ReleaseCallsExactly(watchId, true, true, loopId);
  }
}
