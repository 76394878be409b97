/** Identities of the objects the indicator talks to, and the externally
    visible calls it makes. Each call is recorded as an Effect in a ghost
    log, so that the order and number of bus calls, signal connections and
    cancellations can be stated without modelling the IPC itself. */
module Effects {

  datatype Option<T> = None | Some(value: T)

  /** A GObject that emits signals (the settings object, the panel button). */
  datatype Emitter = Emitter(objectId: nat)

  /** The number `GObject.connect` hands back for one connected handler. */
  type HandlerId = nat

  /** One connected handler: the emitter and the id it returned. */
  datatype Handler = Handler(target: Emitter, id: HandlerId)

  /** The GObject signals the indicator listens to. */
  datatype Signal = ShowIndicatorChanged | ButtonPressEvent | TouchEvent

  /** The shared session bus and the private monitor-mode connection. */
  datatype Bus = SessionBus | MonitorBus

  /** A synchronous D-Bus method call: destination, object path, interface, member. */
  datatype MethodCall = MethodCall(destination: string, path: string, iface: string, member: string)

  /** Declares monitor intent for unlock-completion traffic. */
  const BECOME_MONITOR := MethodCall("org.freedesktop.DBus", "/org/freedesktop/DBus",
                                     "org.freedesktop.DBus.Monitoring", "BecomeMonitor")
  /** The match rule passed to BecomeMonitor. */
  const UNLOCK_MATCH_RULE := "interface='org.freedesktop.Secret.Prompt',member='Completed'"
  /** Reads the `Locked` property of the login collection. */
  const LOCKED_QUERY := MethodCall("org.freedesktop.secrets", "/org/freedesktop/secrets/collection/login",
                                   "org.freedesktop.DBus.Properties", "Get")
  /** Locks every collection of the keyring service. */
  const LOCK_SERVICE := MethodCall("org.gnome.keyring", "/org/freedesktop/secrets",
                                   "org.freedesktop.Secret.Service", "LockService")

  datatype Effect =
    | Connect(handler: Handler, signal: Signal)        // target.connect(signal, hook)
    | Disconnect(handler: Handler)                     // target.disconnect(id)
    | Call(bus: Bus, call: MethodCall)                 // call_sync
    | SubscribeUnlockCompleted(subscription: nat)      // signal_subscribe on the monitor bus
    | Unsubscribe(subscription: nat)                   // signal_unsubscribe
    | AddTimeout(source: nat, seconds: nat)            // GLib.timeout_add_seconds
    | RemoveSource(source: nat)                        // GLib.Source.remove
    | Close(bus: Bus)                                  // close_sync
}
