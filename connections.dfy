/** The `_connections` table: for each emitter, the ids of the handlers
    connected to it. The table exists so that every connection made can be
    cancelled in one sweep on teardown. */
module Connections {
  import opened Effects

  type Table = map<Emitter, set<HandlerId>>

  /** Every (emitter, id) the table records. */
  function Pairs(t: Table): set<Handler> {
    set e, id | e in t && id in t[e] :: Handler(e, id)
  }

  /** The Disconnect calls that cancel every handler the table records. */
  function DisconnectsOf(t: Table): set<Effect> {
    set h | h in Pairs(t) :: Disconnect(h)
  }

  /** `d` disconnects every handler of `t` exactly once, and nothing else. */
  ghost predicate EachOnce(d: seq<Effect>, t: Table) {
    multiset(d) == multiset(DisconnectsOf(t))
  }

  /** An empty table has nothing to disconnect: a second sweep makes no call. */
  lemma NothingToDisconnect(d: seq<Effect>)
    requires EachOnce(d, map[])
    ensures d == []
  {
    assert Pairs(map[]) == {};
    assert DisconnectsOf(map[]) == {};
    assert |d| == |multiset(d)| == 0;
  }

  /** The Disconnect calls of a table, described element by element. */
  lemma DisconnectsOfExactly(t: Table, s: set<Effect>)
    requires forall x :: x in s <==> x.Disconnect? && x.handler.target in t && x.handler.id in t[x.handler.target]
    ensures s == DisconnectsOf(t)
  {
    forall x | x in s ensures x in DisconnectsOf(t) {
      assert x.handler == Handler(x.handler.target, x.handler.id);
      assert x.handler in Pairs(t);
    }
  }

  /** Recording handler `id` of `target`; an absent target records nothing. */
  function Connect(t: Table, target: Option<Emitter>, id: HandlerId): (r: Table)
    ensures target.None? ==> r == t
    ensures target.Some? ==> r.Keys == t.Keys + {target.value}
    ensures target.Some? ==> r[target.value] == (if target.value in t then t[target.value] else {}) + {id}
    ensures target.Some? ==> forall e :: e in t && e != target.value ==> r[e] == t[e]
  {
    match target
    case None => t
    case Some(e) => t[e := (if e in t then t[e] else {}) + {id}]
  }

  /** Connecting records exactly one more handler, and loses none. */
  lemma ConnectRecordsHandler(t: Table, e: Emitter, id: HandlerId)
    ensures Pairs(Connect(t, Some(e), id)) == Pairs(t) + {Handler(e, id)}
  {
    var r := Connect(t, Some(e), id);
    forall h | h in Pairs(r) ensures h in Pairs(t) + {Handler(e, id)} {
      if h.target != e { assert h.id in t[h.target]; }
    }
    forall h | h in Pairs(t) + {Handler(e, id)} ensures h in Pairs(r) {
      assert h.target in r && h.id in r[h.target];
    }
  }

  /** Connecting keeps the table in step with the log: if the table recorded
      exactly the live handlers, it still does after one more connect. */
  lemma ConnectKeepsMirror(t: Table, log: seq<Effect>, e: Emitter, id: HandlerId, signal: Signal)
    requires Pairs(t) == Live(log)
    ensures Pairs(Connect(t, Some(e), id)) == Live(log + [Effects.Connect(Handler(e, id), signal)])
  {
    ConnectRecordsHandler(t, e, id);
    LiveAppend(log, Effects.Connect(Handler(e, id), signal));
  }

  /** The handlers a log of effects leaves connected: each Connect adds its
      handler and each Disconnect removes its handler. */
  function Live(log: seq<Effect>): set<Handler>
    decreases |log|
  {
    if log == [] then {}
    else
      var before := Live(log[..|log| - 1]);
      match log[|log| - 1]
      case Connect(h, _) => before + {h}
      case Disconnect(h) => before - {h}
      case _ => before
  }

  /** Live after one more effect. */
  lemma LiveAppend(log: seq<Effect>, x: Effect)
    ensures x.Connect? ==> Live(log + [x]) == Live(log) + {x.handler}
    ensures x.Disconnect? ==> Live(log + [x]) == Live(log) - {x.handler}
    ensures !x.Connect? && !x.Disconnect? ==> Live(log + [x]) == Live(log)
  {
    assert (log + [x])[..|log|] == log;
  }

  /** Appending a run of Disconnect calls takes exactly their handlers out
      of the live set. */
  lemma {:induction false} LiveAfterDisconnects(log: seq<Effect>, d: seq<Effect>)
    requires forall i :: 0 <= i < |d| ==> d[i].Disconnect?
    ensures Live(log + d) == Live(log) - (set i | 0 <= i < |d| :: d[i].handler)
    decreases |d|
  {
    if d != [] {
      var n := |d| - 1;
      LiveAfterDisconnects(log, d[..n]);
      assert log + d == (log + d[..n]) + [d[n]];
      LiveAppend(log + d[..n], d[n]);
      var all := set i | 0 <= i < |d| :: d[i].handler;
      var earlier := set i | 0 <= i < n :: d[..n][i].handler;
      forall h | h in all ensures h in earlier + {d[n].handler} {
        var i :| 0 <= i < |d| && d[i].handler == h;
        if i < n { assert d[..n][i] == d[i]; }
      }
      forall h | h in earlier ensures h in all {
        var i :| 0 <= i < n && d[..n][i].handler == h;
        assert d[i] == d[..n][i];
      }
      assert all == earlier + {d[n].handler};
    } else {
      assert log + d == log;
    }
  }

  /** Teardown leaves nothing live: if the table mirrors the live handlers
      and each of its handlers is disconnected exactly once, no handler is
      live afterwards. */
  lemma TeardownLeavesNothingLive(log: seq<Effect>, d: seq<Effect>, t: Table)
    requires Live(log) == Pairs(t)
    requires multiset(d) == multiset(DisconnectsOf(t))
    ensures Live(log + d) == {}
  {
    forall i | 0 <= i < |d| ensures d[i].Disconnect? && d[i].handler in Pairs(t) {
      assert d[i] in multiset(d);
    }
    LiveAfterDisconnects(log, d);
    forall h | h in Pairs(t) ensures h in (set i | 0 <= i < |d| :: d[i].handler) {
      assert Disconnect(h) in multiset(DisconnectsOf(t));
      assert Disconnect(h) in d;
      var i :| 0 <= i < |d| && d[i] == Disconnect(h);
    }
  }

  /** Effects other than Connect and Disconnect leave the live set alone. */
  lemma {:induction false} LiveIgnoresOtherEffects(log: seq<Effect>, tail: seq<Effect>)
    requires forall i :: 0 <= i < |tail| ==> !tail[i].Connect? && !tail[i].Disconnect?
    ensures Live(log + tail) == Live(log)
    decreases |tail|
  {
    if tail != [] {
      var n := |tail| - 1;
      LiveIgnoresOtherEffects(log, tail[..n]);
      assert log + tail == (log + tail[..n]) + [tail[n]];
      LiveAppend(log + tail[..n], tail[n]);
    } else {
      assert log + tail == log;
    }
  }
}
