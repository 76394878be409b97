/** The auto-lock state of the indicator and the effect of each event on
    it, as pure functions. Time is an integer number of milliseconds since
    the epoch, as `Date.getTime()` gives it. */
module LockPolicy {

  const MILLIS_PER_MINUTE: nat := 60000

  /** The text of the panel label. */
  datatype Glyph = LockedIcon | UnlockedIcon

  function GlyphFor(locked: bool): Glyph {
    if locked then LockedIcon else UnlockedIcon
  }

  /** `_isLocked` and `_latestKeyringUnlock`. */
  datatype LockState = LockState(isLocked: bool, latestUnlock: int)

  /** The state after an event, and whether handling it issued LockService. */
  datatype Outcome = Outcome(next: LockState, callsLockService: bool)

  /** What a GLib timeout callback returns. */
  datatype SourceControl = SourceContinue | SourceRemove

  datatype TickResult = TickResult(outcome: Outcome, source: SourceControl)

  /** The minutes elapsed since `since`, computed the way the source does
      (a division by 60000), here over the reals. */
  function ElapsedMinutes(now: int, since: int): real {
    (now - since) as real / MILLIS_PER_MINUTE as real
  }

  /** The idle limit check in whole milliseconds. */
  function LimitReached(now: int, since: int, toMax: nat): (r: bool)
    ensures r <==> toMax > 0 && ElapsedMinutes(now, since) >= toMax as real
  {
    toMax > 0 && now - since >= toMax * MILLIS_PER_MINUTE
  }

  /** The unlock-completion handler: unlocked, as of `now`. */
  function AfterUnlock(now: int): (s: LockState)
    ensures !s.isLocked && s.latestUnlock == now
  {
    LockState(false, now)
  }

  /** forceLock: issue LockService, then mark the keyring locked. */
  function AfterForceLock(s: LockState): (r: Outcome)
    ensures r.callsLockService && r.next.isLocked
    ensures r.next.latestUnlock == s.latestUnlock
  {
    Outcome(s.(isLocked := true), true)
  }

  /** pressIcon: lock, but only when currently unlocked. */
  function AfterPress(s: LockState): (r: Outcome)
    ensures r.callsLockService <==> !s.isLocked
    ensures r.next.isLocked && r.next.latestUnlock == s.latestUnlock
    ensures s.isLocked ==> r.next == s
  {
    if !s.isLocked then AfterForceLock(s) else Outcome(s, false)
  }

  /** The 60-second timeout callback, with `toMax` the threshold read from
      the settings on this tick. */
  function AfterTimeout(s: LockState, now: int, toMax: nat): (r: TickResult)
    ensures r.source == SourceContinue
    ensures s.isLocked ==> r.outcome == Outcome(s, false)
    ensures toMax == 0 ==> r.outcome == Outcome(s, false)
    ensures r.outcome.callsLockService <==>
              !s.isLocked && toMax > 0 && ElapsedMinutes(now, s.latestUnlock) >= toMax as real
    ensures r.outcome.next.isLocked == (s.isLocked || r.outcome.callsLockService)
    ensures r.outcome.next.latestUnlock == s.latestUnlock
  {
    var o :=
      if !s.isLocked then
        if LimitReached(now, s.latestUnlock, toMax) then AfterForceLock(s) else Outcome(s, false)
      else Outcome(s, false);
    TickResult(o, SourceContinue)
  }

  /** With ticks spaced a whole number of minutes after the last unlock,
      the limit is reached exactly from minute `toMax` on. */
  lemma LimitReachedAtMinute(since: int, minutes: int, toMax: nat)
    ensures LimitReached(since + minutes * MILLIS_PER_MINUTE, since, toMax) <==> toMax > 0 && minutes >= toMax
  {
  }
}
