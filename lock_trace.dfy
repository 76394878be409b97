/** Sequences of the events the single-threaded main loop delivers to the
    indicator, and what they do to the lock state over time. */
module LockTrace {
  import opened LockPolicy

  /** The three entry points that change the lock state: the unlock-completion
      signal, a timer tick (with the threshold read on that tick), and a press
      on the panel icon. */
  datatype Event =
    | UnlockCompleted(at: int)
    | Timeout(at: int, toMax: nat)
    | IconPressed

  /** One event handled from state `s`. */
  function Step(s: LockState, e: Event): (r: Outcome)
    ensures r.callsLockService ==> !s.isLocked && r.next.isLocked
    ensures e.UnlockCompleted? ==> r == Outcome(LockState(false, e.at), false)
    ensures s.isLocked && !e.UnlockCompleted? ==> r == Outcome(s, false)
  {
    match e
    case UnlockCompleted(at) => Outcome(AfterUnlock(at), false)
    case Timeout(at, toMax) => AfterTimeout(s, at, toMax).outcome
    case IconPressed => AfterPress(s)
  }

  /** The final state of a run, and for each event whether it issued LockService. */
  datatype Trace = Trace(final: LockState, lockCalls: seq<bool>)

  function Run(s: LockState, events: seq<Event>): (r: Trace)
    ensures |r.lockCalls| == |events|
    decreases |events|
  {
    if events == [] then Trace(s, [])
    else
      var before := Run(s, events[..|events| - 1]);
      var o := Step(before.final, events[|events| - 1]);
      Trace(o.next, before.lockCalls + [o.callsLockService])
  }

  /** The state just before event `i` is handled. */
  function StateBefore(s: LockState, events: seq<Event>, i: nat): LockState
    requires i <= |events|
  {
    Run(s, events[..i]).final
  }

  /** Running a prefix gives a prefix of the lock calls. */
  lemma {:induction false} RunPrefix(s: LockState, events: seq<Event>, k: nat)
    requires k <= |events|
    ensures Run(s, events[..k]).lockCalls == Run(s, events).lockCalls[..k]
    decreases |events|
  {
    if k < |events| {
      var shorter := events[..|events| - 1];
      assert shorter[..k] == events[..k];
      RunPrefix(s, shorter, k);
    } else {
      assert events[..k] == events;
    }
  }

  /** Event `i` issues LockService exactly when handling it from the state
      the earlier events left does. */
  lemma {:induction false} LockCallAt(s: LockState, events: seq<Event>, i: nat)
    requires i < |events|
    ensures Run(s, events).lockCalls[i] == Step(StateBefore(s, events, i), events[i]).callsLockService
  {
    RunPrefix(s, events, i + 1);
    assert events[..i + 1][..i] == events[..i];
  }

  /** A tick that reads a threshold of 0 never locks, whatever came before. */
  lemma DisarmedTickNeverLocks(s: LockState, events: seq<Event>, i: nat)
    requires i < |events| && events[i].Timeout? && events[i].toMax == 0
    ensures !Run(s, events).lockCalls[i]
  {
    LockCallAt(s, events, i);
  }

  /** Once locked, the state stays locked until an unlock-completion arrives. */
  lemma {:induction false} StaysLocked(s: LockState, events: seq<Event>, i: nat, j: nat)
    requires i <= j <= |events|
    requires StateBefore(s, events, i).isLocked
    requires forall k :: i <= k < j ==> !events[k].UnlockCompleted?
    ensures StateBefore(s, events, j).isLocked
    decreases j
  {
    if j > i {
      StaysLocked(s, events, i, j - 1);
      assert events[..j][..j - 1] == events[..j - 1];
    }
  }

  /** No redundant lock: between two LockService calls there is always an
      unlock-completion. */
  lemma NoRedundantLock(s: LockState, events: seq<Event>, i: nat, j: nat)
    requires i < j < |events|
    requires Run(s, events).lockCalls[i] && Run(s, events).lockCalls[j]
    ensures exists k :: i < k < j && events[k].UnlockCompleted?
  {
    if forall k :: i < k < j ==> !events[k].UnlockCompleted? {
      LockCallAt(s, events, i);
      LockCallAt(s, events, j);
      assert events[..i + 1][..i] == events[..i];
      assert StateBefore(s, events, i + 1).isLocked;
      StaysLocked(s, events, i + 1, j);
      assert false;
    }
  }

  /** Whether event `e` is a tick at which the idle limit, measured from `since`, is reached. */
  predicate Reached(since: int, e: Event) {
    e.Timeout? && LimitReached(e.at, since, e.toMax)
  }

  predicate OnlyTicks(events: seq<Event>) {
    forall k :: 0 <= k < |events| ==> events[k].Timeout?
  }

  /** With only ticks and no unlock, the keyring ends locked exactly when
      some tick reached the limit, and the last unlock time is kept. */
  lemma {:induction false} TicksOnlyFinal(s: LockState, events: seq<Event>)
    requires !s.isLocked && OnlyTicks(events)
    ensures Run(s, events).final ==
              LockState(exists k :: 0 <= k < |events| && Reached(s.latestUnlock, events[k]), s.latestUnlock)
    decreases |events|
  {
    if events != [] {
      var n := |events| - 1;
      var shorter := events[..n];
      assert OnlyTicks(shorter) by {
        forall k | 0 <= k < |shorter| ensures shorter[k].Timeout? {
          assert shorter[k] == events[k];
        }
      }
      TicksOnlyFinal(s, shorter);
      var before := Run(s, shorter).final;
      if exists k :: 0 <= k < n && Reached(s.latestUnlock, shorter[k]) {
        var k :| 0 <= k < n && Reached(s.latestUnlock, shorter[k]);
        assert Reached(s.latestUnlock, events[k]);
      } else {
        forall k | 0 <= k < n ensures !Reached(s.latestUnlock, events[k]) {
          assert events[k] == shorter[k];
        }
      }
    }
  }

  /** With only ticks after an unlock, a lock fires on the first tick at
      which the limit is reached, and on no other tick. */
  lemma FirstReachedTickLocks(s: LockState, events: seq<Event>, i: nat)
    requires !s.isLocked && OnlyTicks(events) && i < |events|
    ensures Run(s, events).lockCalls[i] <==>
              Reached(s.latestUnlock, events[i]) &&
              forall k :: 0 <= k < i ==> !Reached(s.latestUnlock, events[k])
  {
    LockCallAt(s, events, i);
    var prefix := events[..i];
    assert OnlyTicks(prefix) by {
      forall k | 0 <= k < |prefix| ensures prefix[k].Timeout? {
        assert prefix[k] == events[k];
      }
    }
    TicksOnlyFinal(s, prefix);
    if exists k :: 0 <= k < i && Reached(s.latestUnlock, events[k]) {
      var k :| 0 <= k < i && Reached(s.latestUnlock, events[k]);
      assert prefix[k] == events[k];
    } else {
      forall k | 0 <= k < i ensures !Reached(s.latestUnlock, prefix[k]) {
        assert prefix[k] == events[k];
      }
    }
  }

  /** Ticks that all come before the limit leave the state as it was and
      issue nothing: from construction time, no tick locks early. */
  lemma NoLockBeforeLimit(s: LockState, events: seq<Event>)
    requires !s.isLocked && OnlyTicks(events)
    requires forall k :: 0 <= k < |events| ==> !Reached(s.latestUnlock, events[k])
    ensures Run(s, events).final == s
    ensures forall k :: 0 <= k < |events| ==> !Run(s, events).lockCalls[k]
  {
    TicksOnlyFinal(s, events);
    forall k | 0 <= k < |events| ensures !Run(s, events).lockCalls[k] {
      FirstReachedTickLocks(s, events, k);
    }
  }

  /** The time of the most recent unlock-completion in `events`, or `initial` if none. */
  function LastUnlockTime(initial: int, events: seq<Event>): int
    decreases |events|
  {
    if events == [] then initial
    else if events[|events| - 1].UnlockCompleted? then events[|events| - 1].at
    else LastUnlockTime(initial, events[..|events| - 1])
  }

  /** The last unlock time the state holds is that of the latest delivery;
      right after a delivery the keyring is believed unlocked. */
  lemma {:induction false} LatestDeliveryWins(s: LockState, events: seq<Event>)
    ensures Run(s, events).final.latestUnlock == LastUnlockTime(s.latestUnlock, events)
    ensures events != [] && events[|events| - 1].UnlockCompleted? ==>
              Run(s, events).final == LockState(false, events[|events| - 1].at)
    decreases |events|
  {
    if events != [] {
      LatestDeliveryWins(s, events[..|events| - 1]);
    }
  }

  /** A tick every minute after an unlock at t = 0, with a threshold of 5
      minutes: no lock at minutes 1 to 4, one at minute 5, none at 6 and 7. */
  lemma ThresholdFiveScenario()
    ensures Run(LockState(false, 0),
                [Timeout(1 * MILLIS_PER_MINUTE, 5), Timeout(2 * MILLIS_PER_MINUTE, 5),
                 Timeout(3 * MILLIS_PER_MINUTE, 5), Timeout(4 * MILLIS_PER_MINUTE, 5),
                 Timeout(5 * MILLIS_PER_MINUTE, 5), Timeout(6 * MILLIS_PER_MINUTE, 5),
                 Timeout(7 * MILLIS_PER_MINUTE, 5)]).lockCalls
            == [false, false, false, false, true, false, false]
  {
    var s := LockState(false, 0);
    var events := [Timeout(1 * MILLIS_PER_MINUTE, 5), Timeout(2 * MILLIS_PER_MINUTE, 5),
                   Timeout(3 * MILLIS_PER_MINUTE, 5), Timeout(4 * MILLIS_PER_MINUTE, 5),
                   Timeout(5 * MILLIS_PER_MINUTE, 5), Timeout(6 * MILLIS_PER_MINUTE, 5),
                   Timeout(7 * MILLIS_PER_MINUTE, 5)];
    var calls := Run(s, events).lockCalls;
    forall i | 0 <= i < 7 ensures Reached(0, events[i]) <==> i >= 4 {
      assert events[i] == Timeout((i + 1) * MILLIS_PER_MINUTE, 5);
      LimitReachedAtMinute(0, i + 1, 5);
    }
    forall i | 0 <= i < 7 ensures calls[i] == (i == 4) {
      FirstReachedTickLocks(s, events, i);
      if i > 4 {
        assert Reached(0, events[4]);
      }
    }
  }

  /** The threshold drops from 10 to 0 after 8 idle minutes: no later tick
      locks, however long the keyring then stays unlocked. */
  lemma ThresholdDroppedToZeroScenario(later: seq<int>)
    ensures var events := [Timeout(8 * MILLIS_PER_MINUTE, 10)] + seq(|later|, k requires 0 <= k < |later| => Timeout(later[k], 0));
            forall k :: 0 <= k < |events| ==> !Run(LockState(false, 0), events).lockCalls[k]
  {
    var events := [Timeout(8 * MILLIS_PER_MINUTE, 10)] + seq(|later|, k requires 0 <= k < |later| => Timeout(later[k], 0));
    forall k | 0 <= k < |events| ensures !Run(LockState(false, 0), events).lockCalls[k] {
      if k == 0 {
        FirstReachedTickLocks(LockState(false, 0), events, 0);
      } else {
        DisarmedTickNeverLocks(LockState(false, 0), events, k);
      }
    }
  }
}
