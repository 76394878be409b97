# Auto-lock keyring: a Dafny model of the panel indicator

The GNOME Shell extension *Auto-Lock Keyring* adds a panel indicator
(`TExtension` in `src/extension.ts`) that locks the GNOME keyring once it
has been unlocked for longer than a configured number of minutes.

- **Unlock tracking.** The indicator watches the session bus for
  `org.freedesktop.Secret.Prompt.Completed` signals, using a private
  monitor-mode connection. Each one records the time of the latest
  unlock.
- **Timer.** Every 60 seconds a timer compares the time elapsed since
  that unlock with the `to-max` threshold. If the keyring is unlocked
  and the threshold is reached, it calls `LockService` on the keyring
  daemon.
- **Manual lock.** Clicking or touching the icon locks at once.
- **Disable.** Disabling the extension disconnects every signal handler
  it connected, unsubscribes from the bus, closes both bus connections
  and removes the timer.

The model has five modules:

- `Effects` (effects.dfy): the identities of the objects the indicator
  talks to, and the externally visible calls it makes (`Effect`). This
  includes the exact D-Bus destinations, paths, interfaces and members
  used.
- `LockPolicy` (lock_policy.dfy): the lock state (`_isLocked`,
  `_latestKeyringUnlock`) and the effect of each event on it, as pure
  functions. The timer's decision is stated against the elapsed minutes
  over the reals, as the source computes it with a division by 60000.
  The integer-millisecond test the model uses is proved equal to it.
- `LockTrace` (lock_trace.dfy): finite sequences of events (unlock
  completions, ticks with the threshold read on that tick, icon
  presses) and what they do over time. This covers:
  - which tick locks;
  - that the keyring is never locked twice without an unlock in between;
  - concrete threshold scenarios.
- `Connections` (connections.dfy): the `_connections` table as a map
  from emitter to set of handler ids. It includes the pure `_connect`
  update, and `Live(log)`, the set of handlers a log of calls leaves
  connected. It also proves that a sweep disconnecting each recorded
  handler once leaves nothing connected.
- `Extension` (extension.dfy): the class `AutoLockIndicator`, with the
  fields of `TExtension`.
  - Each handler of the source is a method with a `modifies` clause,
    proved against the `LockPolicy` functions.
  - A ghost `log` records every bus call, signal connection and
    cancellation, so the order and number of the external calls are
    stated.
  - The invariant `Valid()` says that the `_connections` table records
    exactly the handlers the log leaves connected, and that the label
    shows the lock state.
  - Ids handed back by GObject and GLib, the `Locked` reply, the clock
    and the threshold are method parameters.

Notes on what the code does:

- On enabling, the show-indicator handler is connected before the
  preference is first read (src/extension.ts:45-49).
- Teardown disconnects the handlers, then unsubscribes, closes the
  session bus, closes the monitor bus and removes the timer. This is not
  the reverse of the startup order (src/extension.ts:107-122).
- The session connection closed on teardown is the process-wide
  `Gio.DBus.session`, not a connection owned by the indicator
  (src/extension.ts:51, src/extension.ts:113).
- The table is cleared after the whole sweep, not entry by entry
  (src/extension.ts:185-194). Teardown has no error handling
  (src/extension.ts:107-125).
- Any `Completed` signal on the prompt interface counts as an unlock.
  The signal's `dismissed` flag is not read (src/extension.ts:71-84).

## Model

| member | source | states |
|---|---|---|
| LockPolicy.LimitReached | src/extension.ts:90 | The integer test `now - since >= toMax * 60000` holds exactly when `toMax > 0` and the elapsed minutes, `(now - since) / 60000` over the reals, are at least `toMax`. |
| LockPolicy.AfterUnlock | src/extension.ts:78-83 | An unlock completion leaves the keyring believed unlocked, with the latest unlock at `now`. |
| LockPolicy.AfterForceLock | src/extension.ts:143-157 | forceLock always issues LockService and then marks the keyring locked; the last-unlock time is kept. |
| LockPolicy.AfterPress | src/extension.ts:159-163 | A press issues LockService exactly when the keyring is unlocked; afterwards it is locked either way; a press while locked changes nothing. |
| LockPolicy.AfterTimeout | src/extension.ts:86-95 | A tick always returns SOURCE_CONTINUE. It changes nothing while locked or when the threshold is 0. It issues LockService exactly when unlocked, `toMax > 0` and the elapsed minutes reach `toMax`. The state is locked afterwards exactly when it was locked or LockService was issued, and the last-unlock time is kept. |
| LockPolicy.LimitReachedAtMinute | src/extension.ts:90 | A tick a whole number `m` of minutes after the last unlock reaches the limit exactly when `toMax > 0` and `m >= toMax`. |
| LockTrace.Step | src/extension.ts:78-95 | Handling one event issues LockService only from an unlocked state, and only into a locked one. An unlock completion always yields unlocked-at-its-time. Any other event changes nothing while locked. |
| LockTrace.Run | src/extension.ts:86-95 | A run of events records exactly one LockService flag per event. |
| LockTrace.LockCallAt | src/extension.ts:86-95 | Event `i` of a run issues LockService exactly when handling it from the state left by the events before it does. |
| LockTrace.DisarmedTickNeverLocks | src/extension.ts:89-90 | A tick that reads a threshold of 0 never issues LockService, whatever came before. |
| LockTrace.StaysLocked | src/extension.ts:87 | Once locked, the state stays locked until an unlock completion arrives. |
| LockTrace.NoRedundantLock | src/extension.ts:86-93 | Between any two LockService calls there is an unlock completion. |
| LockTrace.TicksOnlyFinal | src/extension.ts:86-93 | After ticks alone from an unlocked state, the keyring is locked exactly when some tick reached the limit, and the last-unlock time is unchanged. |
| LockTrace.FirstReachedTickLocks | src/extension.ts:86-93 | Over ticks alone from an unlocked state, tick `i` locks exactly when it reaches the limit and no earlier tick did. |
| LockTrace.NoLockBeforeLimit | src/extension.ts:32 | Ticks that all fall short of the limit measured from the last unlock (initially the construction time) leave the state unchanged and issue no LockService. |
| LockTrace.LatestDeliveryWins | src/extension.ts:78-83 | The last-unlock time after a run is that of the latest unlock completion in it. Right after a completion the keyring is believed unlocked at that time. |
| LockTrace.ThresholdFiveScenario | src/extension.ts:86-93 | Threshold 5, unlock at 0, ticks at minutes 1 to 7: LockService at minute 5 only. |
| LockTrace.ThresholdDroppedToZeroScenario | src/extension.ts:89-90 | After a threshold-10 tick at minute 8, ticks that read a threshold of 0 never lock, at whatever times they come. |
| Connections.Connect | src/extension.ts:173-180 | An absent target leaves the table unchanged. Otherwise the target becomes a key, `id` joins its set (created empty when new), and every other entry is unchanged. |
| Connections.ConnectRecordsHandler | src/extension.ts:173-180 | The pairs recorded after a connect are those recorded before plus (target, id): the new pair is recorded and none is lost. |
| Connections.ConnectKeepsMirror | src/extension.ts:173-180 | If the table recorded exactly the connected handlers before a connect, it still does after it. |
| Connections.LiveAfterDisconnects | src/extension.ts:185-192 | Appending Disconnect calls removes exactly their handlers from the connected set. |
| Connections.TeardownLeavesNothingLive | src/extension.ts:185-194 | If the table mirrors the connected handlers and each of its handlers is disconnected exactly once, nothing stays connected. |
| Connections.NothingToDisconnect | src/extension.ts:185-194 | A sweep over an empty table makes no call, so a second `_disconnectAll` is a no-op. |
| Connections.LiveIgnoresOtherEffects | src/extension.ts:107-120 | Bus, subscription and timer calls connect and disconnect no signal handler. |
| Extension.ReleaseCalls | src/extension.ts:107-120 | Teardown makes no release call exactly when neither bus connection is open and no timer is registered. |
| Extension.ReleaseCallsExactly | src/extension.ts:110-119 | Teardown unsubscribes exactly when a subscription id is held and the monitor connection is open. It closes each bus connection exactly when open, removes the timer exactly when registered, calls nothing else and nothing twice. |
| Extension.ReleaseLeavesLiveAlone | src/extension.ts:107-120 | The release calls leave the set of connected handlers unchanged. |
| Extension.StartupTable | src/extension.ts:45-104 | The three connections made on enabling leave one handler on the settings object and the press and touch handlers on the panel button. |
| Extension.StartupMirrors | src/extension.ts:36-105 | After enabling, the table records exactly the handlers the startup calls leave connected. |
| Extension.AutoLockIndicator.constructor | src/extension.ts:36-105 | Enabling establishes the invariant, with last unlock = construction time and the lock state from the `Locked` query. It sets visibility from the preference, the table to the three startup handlers, and the subscription and timer ids from what the bus returned. The startup calls are made in source order. |
| Extension.AutoLockIndicator.OpenBusesAndTimer | src/extension.ts:51-101 | Opens both buses, then BecomeMonitor, the unlock subscription, the 60-second timer and the `Locked` query, in that order. The label then shows the returned lock state. |
| Extension.AutoLockIndicator.OnShowIndicatorChanged | src/extension.ts:45-48 | The show-indicator handler sets visibility to the new preference value. |
| Extension.AutoLockIndicator.OnUnlockCompleted | src/extension.ts:78-83 | The unlock handler moves to `AfterUnlock(now)`, shows the unlocked glyph, makes no call and keeps the invariant. |
| Extension.AutoLockIndicator.ForceLock | src/extension.ts:143-157 | Issues exactly one LockService on the session bus, then moves to `AfterForceLock` and shows the locked glyph. |
| Extension.AutoLockIndicator.PressIcon | src/extension.ts:159-163 | Moves to `AfterPress`, issuing LockService exactly when `AfterPress` says so. |
| Extension.AutoLockIndicator.OnTimeout | src/extension.ts:86-95 | Returns SOURCE_CONTINUE, moves to `AfterTimeout`, and issues LockService exactly when `AfterTimeout` says so. |
| Extension.AutoLockIndicator.Connect | src/extension.ts:173-180 | Updates the table as `Connections.Connect` and logs one connect call, or nothing for an absent target. |
| Extension.AutoLockIndicator.DisconnectAll | src/extension.ts:185-194 | The nested sweep disconnects every recorded (target, id) pair exactly once and nothing else. The table ends empty, with no handler left connected. |
| Extension.AutoLockIndicator.Destroy | src/extension.ts:107-125 | Teardown keeps the invariant and the lock state, disconnects every handler exactly once, makes exactly the guarded release calls, clears every handle and leaves nothing connected. |
| Extension.AutoLockIndicator.ReleaseHandles | src/extension.ts:110-122 | Each handle is released only if held, then cleared; the calls are exactly `ReleaseCalls` of the old handles. |
| Extension.TeardownTwice | src/extension.ts:107-125 | Two teardowns in a row make exactly the calls of the first: each handler is disconnected once and each held handle released once. The second teardown adds no call, and the invariant and the empty table are kept. |
| Extension.DisableBeforeFirstTick | src/extension.ts:36-125 | Enabling and then disabling with no event in between leaves nothing connected. The subscription, both bus connections and the timer are all released. |

## Left out

- src/prefs.ts (the preferences window) and esbuild.js (bundling) are not part of this model. The 0..1440 range of `to-max` is a constraint of the preferences UI. The model accepts any natural threshold.
- D-Bus traffic is not modelled. BecomeMonitor, `signal_subscribe`/`signal_unsubscribe`, the `Properties.Get` and `LockService` calls, and `close_sync` are each an entry in the ghost log, and their results (subscription id, `Locked` reply) are parameters. Opening the monitor connection with `new_for_address_sync` (src/extension.ts:54-59) is not logged; it is only the `monitorOpen` flag becoming true. The match rule passed to BecomeMonitor is kept as a constant only.
- GLib scheduling is not modelled. The 60-second cadence is not verifiable; ticks are calls of `OnTimeout` with the clock as a parameter. `GLib.Source.remove` and `timeout_add_seconds` are log entries.
- Failures of bus calls are not modelled. `call_sync` throws when a call fails, so in the source forceLock marks the keyring locked only after LockService has returned normally (src/extension.ts:144-155). On a failed LockService, `_isLocked` stays false, and when the call came from the timer the callback exits by the exception instead of returning SOURCE_CONTINUE (src/extension.ts:91-94). The model covers only the normal return: `ForceLock`, `PressIcon` and `OnTimeout` always succeed. A failure of the BecomeMonitor or `Locked` call during enabling, and of any release call during teardown, is not modelled either.
- `Date.getTime()` is not modelled; the clock is the `now` parameter. The source's floating-point test `(now - last) / 60000 >= to_max` is modelled over the reals, and the double comparison agrees with it. Millisecond times are whole numbers below 2^53, so the difference is exact. `get_uint` keeps `to_max` below 2^32. When the difference is below `to_max * 60000`, the exact quotient falls short of `to_max` by at least 1/60000. That gap is larger than half a unit of double precision at any value below 2^32, so the rounded quotient stays below `to_max`. When the difference reaches `to_max * 60000`, rounding is monotone and `to_max` is exactly representable, so the rounded quotient is at least `to_max`.
- St.Label rendering, `show`/`hide` and PanelMenu are reduced to the `glyph` and `visible` fields. The module-level `enable`/`disable` singleton plumbing and `super.destroy()` are left out.
- The GObject handler closures are not modelled. A connected handler is its (emitter, id) pair plus the signal name.
- Extension.AutoLockIndicator.Connect: the `if (target)` guard is modelled with `Option`. The two emitters the constructor connects to are always present, so the constructor only takes the present branch.
- Extension.AutoLockIndicator.DisconnectAll: the `if (target)` guard inside the sweep always holds, because the table only ever holds present emitters.
- Extension.AutoLockIndicator.OnTimeout and ForceLock require the settings object and the session connection to be present. This reflects the non-null assertions `this._settings!` and `this._session!` of the source; a tick after teardown is not modelled.
- Extension.AutoLockIndicator.constructor: `hide()` runs before any bus call when the preference is off. The model therefore sets visibility together with the initial field values.
