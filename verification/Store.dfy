/** The operations of the store on the counters of one host. */
module Stores {
  import opened Prelude
  import opened Keyspace
  import opened Redis
  import opened Ledger
  import opened Commands
  import opened Worlds

  /** An increment moves the counter by exactly the delta if it took effect, whatever the call says. */
  predicate Incremented(e: Env, x: Account, y: Account, c: Call)
    requires c.Increment?
  {
    && SameLedger(After(x, c), y)
    && (Quiet(x, y) ==>
      && y.erased == x.erased
      && (if c.applied then IsNumber(y.counter) && Val(y.counter) == Val(x.counter) + c.delta
          else ValueOf(y.counter) == ValueOf(x.counter))
      && (e.heartbeat ==> ValueOf(y.heartbeat) == ValueOf(x.heartbeat)))
  }

  /** A successful report leaves the reported number in the monitoring key, and never moves a counter. */
  predicate Reported(e: Env, x: Account, y: Account, beat: Heartbeat, ok: bool) {
    && SameLedger(x.(renewals := y.renewals), y)
    && (y.bare ==> x.bare)
    && (ok && e.heartbeat ==> ValueOf(y.heartbeat) == Some(Beat(beat)))
    && (Quiet(x, y) ==>
      && ValueOf(y.counter) == ValueOf(x.counter) && y.erased == x.erased
      && (x.heartbeat.Some? ==> y.heartbeat.Some?))
  }

  /** A reset erases what the counter held, at most once, and ends with both keys at zero. */
  predicate WasReset(e: Env, x: Account, y: Account, c: Call, removed: int)
    requires c.Zeroing?
  {
    && (c.error.None? ==> c.wiped)
    && SameLedger(After(if c.wiped then Emptied(x, removed) else x, c).(renewals := y.renewals), y)
    && (y.bare ==> x.bare)
    && (Quiet(x, y) ==>
      && removed == Val(x.counter)
      && y.erased == x.erased + (if c.wiped then removed else 0)
      && (if c.wiped then IsNumber(y.counter) && Val(y.counter) == 0 else ValueOf(y.counter) == ValueOf(x.counter))
      && (e.heartbeat && x.heartbeat.Some? ==> y.heartbeat.Some?)
      && (c.error.None? && e.heartbeat ==> Agree(y.counter, y.heartbeat)))
  }

  /** Only commands were sent; no call has ended. */
  predicate SameCounts(g: Books, h: Books) {
    h.answered == g.answered && h.failures == g.failures && h.outages == g.outages && h.alarms == g.alarms
  }

  /** With a ttl set, an increment leaves the counter without an expiry exactly if the EXPIRE did not take
      effect and the counter was without one before or has just been made by the INCRBY. */
  predicate BareBy(e: Env, x: Account, y: Account, applied: bool, extended: bool) {
    Quiet(x, y) ==> (y.bare <==> !extended && (x.bare || (applied && e.ttl > 0 && x.counter.None?)))
  }

  /** What the commands of an increment come to. */
  predicate Increased(e: Env, x: Account, y: Account, delta: int, applied: bool, extended: bool) {
    && SameLedger(if applied then x.(applied := x.applied + delta, zeroed := false) else x, y)
    && (y.bare ==> x.bare || applied)
    && BareBy(e, x, y, applied, extended)
    && (Quiet(x, y) ==>
      && y.erased == x.erased
      && (if applied then IsNumber(y.counter) && Val(y.counter) == Val(x.counter) + delta
          else ValueOf(y.counter) == ValueOf(x.counter))
      && (e.heartbeat ==> ValueOf(y.heartbeat) == ValueOf(x.heartbeat)))
  }

  lemma JustIncr(e: Env, x: Account, y: Account, delta: int, applied: bool)
    requires IncrSent(e, x, y, delta, applied)
    ensures Increased(e, x, y, delta, applied, false) && (e.ttl == 0 ==> !y.bare) && Unrenewed(x, y)
  {
  }

  lemma IncrThenRefresh(e: Env, x: Account, y: Account, z: Account, delta: int, applied: bool,
                        since: nat, until: nat, extended: bool, ok: bool)
    requires IncrSent(e, x, y, delta, applied) && RefreshSent(e, y, z, false, since, until, extended, ok)
    ensures Increased(e, x, z, delta, applied, extended)
    ensures ok ==> !z.bare
    ensures Quiet(x, z) ==> Val(z.counter) == Val(y.counter)
  {
  }

  lemma IncrementPosted(e: Env, x: Account, y: Account, c: Call, extended: bool)
    requires c.Increment? && Increased(e, x, y, c.delta, c.applied, extended) && (c.error.None? ==> !y.bare)
    ensures SameLedger(Effect(x, c), y) && BareAfter(x, y, c)
    ensures Incremented(e, x, Posted(y, c), c)
    ensures BareBy(e, x, Posted(y, c), c.applied, extended)
    ensures Posted(y, c).counter == y.counter && y.acked == x.acked
  {
  }

  lemma PostedKeys(x: Account, c: Call)
    ensures Posted(x, c).counter == x.counter && Posted(x, c).heartbeat == x.heartbeat && Posted(x, c).bare == x.bare
    ensures Posted(x, c).others == x.others && Posted(x, c).renewals == x.renewals
  {
  }

  /** The first SET of a reset, taken as a call of its own. */
  lemma ZeroLedger(e: Env, x: Account, y: Account, a: string, wiped: bool, removed: int)
    requires ZeroSent(e, x, y, wiped, removed)
    ensures Unrenewed(x, y) && (y.bare ==> x.bare)
    ensures if wiped then SameLedger(Effect(x, Wipe(a, removed)), y) else SameLedger(x, y)
  {
  }

  lemma ZeroPosted(e: Env, x: Account, y: Account, c: Call, removed: int)
    requires c.Zeroing? && c.error.Some? && ZeroSent(e, x, y, c.wiped, removed)
    ensures SameLedger(Effect(y, c), y) && BareAfter(y, y, c) && WasReset(e, x, Posted(y, c), c, removed)
    ensures Posted(y, c).others == y.others
  {
  }

  lemma ZeroThenReport(e: Env, x: Account, y: Account, z: Account, c: Call, removed: int, beat: Heartbeat)
    requires c.Zeroing? && c.wiped && beat.lines == 0
    requires ZeroSent(e, x, y, true, removed) && Reported(e, y, z, beat, c.error.None?)
    ensures SameLedger(Effect(z, c), z) && BareAfter(z, z, c) && WasReset(e, x, Posted(z, c), c, removed)
    ensures Quiet(x, Posted(z, c)) ==> Quiet(y, z) && Val(y.counter) == 0
  {
  }

  lemma BeatPosted(e: Env, x: Account, y: Account, beat: Heartbeat, c: Call)
    requires c.Report? && BeatSent(e, x, y, beat, c.applied) && (c.error.None? ==> c.applied)
    ensures Unrenewed(x, y)
    ensures SameLedger(Effect(x, c), y) && BareAfter(x, y, c) && Posted(y, c) == y
    ensures Reported(e, x, y, beat, c.error.None?)
  {
  }

  lemma NothingReported(e: Env, g: Books, a: string, beat: Heartbeat)
    requires !e.heartbeat && a in g.book
    ensures Worked(e, g, g, a) && Reported(e, g.book[a], g.book[a], beat, true)
  {
  }

  /** What a reset adds to the history: that it emptied the counter, if it got that far, then a report
      of zero, if that was sent, which states what the counter holds; and the reset itself. */
  predicate ResetCalls(h: seq<Call>, i: seq<Call>, c: Call, removed: int, quiet: bool)
    requires c.Zeroing?
  {
    if !c.wiped then i == h + [c]
    else
      var m := h + [Wipe(c.action, removed)];
      || i == m + [c]
      || (|i| == |m| + 2 && i == m + [i[|m|]] + [c] && IsZeroReport(i[|m|], c.action, quiet)
          && i[|m|].error == c.error)
  }

  predicate IsZeroReport(r: Call, a: string, quiet: bool) {
    r.Report? && r.action == a && r.lines == 0 && (quiet ==> r.actual == 0)
  }

  lemma WipedAndReported(h: seq<Call>, m: seq<Call>, r: Call, c: Call, removed: int, quiet: bool)
    requires c.Zeroing? && c.wiped
    requires var s := h + [Wipe(c.action, removed)];
             m == s || (m == s + [r] && IsZeroReport(r, c.action, quiet) && r.error == c.error)
    ensures ResetCalls(h, m + [c], c, removed, quiet)
  {
  }

  /** A reset whose report failed has counted that failure already. */
  lemma ReportedCounts(g: Books, m: Books, h: Books, c: Call, error: Option<Error>)
    requires SameCounts(g, m) && (Tried(m, h, error) || (error.None? && h == m)) && c.action in h.book
    ensures Tried(g, Filed(h, c, if error.None? then Some(None) else None), error)
  {
  }

  class Store {
    const w: World

    constructor (w: World)
      ensures this.w == w
    {
      this.w := w;
    }

    /** The commands of an increment: INCRBY and, with a ttl, EXPIRE in the same pipeline.  The
        pipeline fails if any of its commands does, even after the increment took effect. */
    method SendIncrement(action: string, delta: int) returns (r: Result<int>, ghost applied: bool, ghost extended: bool)
      requires w.Valid() && action in w.actions && 0 <= delta
      modifies w`g, w.cnt, w.rdb
      ensures w.Valid() && w.LinesOnly() && w.rdb.sent == old(w.rdb.sent) + if w.ttl > 0 then 2 else 1
      ensures Worked(w.E(), old(w.g), w.g, action) && w.g.calls == old(w.g).calls && SameCounts(old(w.g), w.g)
      ensures action in old(w.g).book && action in w.g.book
      ensures Increased(w.E(), old(w.g).book[action], w.g.book[action], delta, applied, extended)
      ensures r.Ok? ==> applied && !w.g.book[action].bare
      ensures r.Ok? && Quiet(old(w.g).book[action], w.g.book[action]) ==> r.value == Val(w.g.book[action].counter)
      ensures r.Ok? && w.ttl > 0 ==> Refreshed(w.g.book[action].counter, old(w.g).now, w.g.lastWrite, w.ttl)
    {
      hide Refreshed, Worked, Sound, Mirrors, World.Core, Commanded, Val, IncrSent, RefreshSent, Increased;
      w.CoreAt(action);
      r, applied := w.SendIncr(action, delta);
      w.CoreAt(action);
      extended := false;
      JustIncr(w.E(), old(w.g).book[action], w.g.book[action], delta, applied);
      CommandIsWork(w.E(), old(w.g), w.g, action);
      if w.ttl > 0 {
        ghost var mid := w.g;
        var e;
        e, extended := w.SendRefresh(action, false);
        CommandIsWork(w.E(), mid, w.g, action);
        WorksOn(w.E(), old(w.g), mid, w.g, action);
        IncrThenRefresh(w.E(), old(w.g).book[action], mid.book[action], w.g.book[action], delta, applied,
                        mid.now, w.g.lastWrite, extended, e.Ok?);
        StaysAlone(w.E(), old(w.g), mid, action);
        RefreshSticks(w.E(), mid, w.g, action, false, old(w.g).now, extended, e.Ok?);
        if r.Ok? && e.Err? {
          r := Err(e.error);
        }
      }
    }

    method Incr(action: string, delta: int) returns (r: Result<int>, ghost applied: bool, ghost extended: bool)
      requires w.Valid() && Closed(w.g) && action in w.actions
      requires 0 <= delta <= w.InFlight(action)
      modifies w`g, w.cnt, w.rdb
      ensures w.Valid() && Closed(w.g) && w.LinesOnly()
      ensures w.rdb.sent == old(w.rdb.sent) + if w.ttl > 0 then 2 else 1
      ensures Worked(w.E(), old(w.g), w.g, action)
      ensures action in old(w.g).book && action in w.g.book
      ensures Incremented(w.E(), old(w.g).book[action], w.g.book[action], Increment(action, delta, applied, r.Failed()))
      ensures r.Ok? ==>
                applied && (Quiet(old(w.g).book[action], w.g.book[action]) ==> r.value == Val(w.g.book[action].counter))
      ensures r.Ok? && w.ttl > 0 ==> Refreshed(w.g.book[action].counter, old(w.g).now, w.g.lastWrite, w.ttl)
      ensures BareBy(w.E(), old(w.g).book[action], w.g.book[action], applied, extended)
      ensures w.g.calls == old(w.g).calls + [Increment(action, delta, applied, r.Failed())]
      ensures Tried(old(w.g), w.g, r.Failed())
    {
      hide Closed, Worked, Mirrors, World.Core, Val, IsUnavailable, Increased, Incremented, Posted, Effect, After,
           BareAfter;
      r, applied, extended := SendIncrement(action, delta);
      ghost var c := Increment(action, delta, applied, r.Failed());
      PostedKeys(w.g.book[action], c);
      IncrementPosted(w.E(), old(w.g).book[action], w.g.book[action], c, extended);
      w.Close(old(w.g), c, Some(r.Failed()));
    }

    /** SET of the monitoring value; nothing at all when it is switched off. */
    method SetHeartbeat(action: string, lines: int, time: string)
      returns (r: Result<()>, ghost actual: int, ghost applied: bool)
      requires w.Valid() && Closed(w.g) && action in w.actions
      modifies w`g, w.cnt, w.rdb
      ensures w.Valid() && Closed(w.g) && w.LinesOnly()
      ensures w.rdb.sent == old(w.rdb.sent) + if w.heartbeat then 1 else 0
      ensures Worked(w.E(), old(w.g), w.g, action)
      ensures action in old(w.g).book && action in w.g.book
      ensures Reported(w.E(), old(w.g).book[action], w.g.book[action], Heartbeat(w.host, time, action, lines), r.Ok?)
      ensures Quiet(old(w.g).book[action], w.g.book[action]) ==> actual == Val(old(w.g).book[action].counter)
      ensures if w.heartbeat then
                && w.g.calls == old(w.g).calls + [Report(action, lines, actual, applied, r.Failed())]
                && Tried(old(w.g), w.g, r.Failed())
              else r.Ok? && w.g == old(w.g)
    {
      hide Closed, Worked, Mirrors, World.Core, Val, IsUnavailable, BeatSent, Commanded, Reported, BareAfter;
      w.CoreAt(action);
      if !w.heartbeat {
        actual := Val(w.g.book[action].counter);
        NothingReported(w.E(), w.g, action, Heartbeat(w.host, time, action, lines));
        return Ok(()), actual, false;
      }
      r, applied, actual := w.SendBeat(action, time, lines);
      w.CoreAt(action);
      ghost var c := Report(action, lines, actual, applied, r.Failed());
      BeatPosted(w.E(), old(w.g).book[action], w.g.book[action], Heartbeat(w.host, time, action, lines), c);
      CommandIsWork(w.E(), old(w.g), w.g, action);
      w.Close(old(w.g), c, Some(r.Failed()));
    }

    /** SET of the counter to zero and, if that succeeded, of the monitoring value to match. */
    method Reset(action: string, time: string) returns (r: Result<()>, ghost wiped: bool, ghost removed: int)
      requires w.Valid() && Closed(w.g) && action in w.actions
      modifies w`g, w.cnt, w.rdb
      ensures w.Valid() && Closed(w.g) && w.LinesOnly()
      ensures w.rdb.sent - old(w.rdb.sent) == |w.g.calls| - |old(w.g.calls)| - (if wiped then 1 else 0)
      ensures Worked(w.E(), old(w.g), w.g, action)
      ensures action in old(w.g).book && action in w.g.book
      ensures WasReset(w.E(), old(w.g).book[action], w.g.book[action], Zeroing(action, wiped, r.Failed()), removed)
      ensures ResetCalls(old(w.g).calls, w.g.calls, Zeroing(action, wiped, r.Failed()), removed,
                         Quiet(old(w.g).book[action], w.g.book[action]))
      ensures Tried(old(w.g), w.g, r.Failed())
    {
      hide Closed, Worked, Mirrors, World.Core, Val, IsUnavailable, ZeroSent, WasReset, Effect, Posted, After,
           BareAfter;
      r, wiped, removed := ZeroCounter(action);
      if r.Ok? {
        r := ReportZero(action, time, old(w.g), removed);
      } else {
        ghost var c, mid := Zeroing(action, wiped, r.Failed()), w.g;
        ZeroPosted(w.E(), old(w.g).book[action], mid.book[action], c, removed);
        WorksNowhere(w.E(), mid, action);
        w.Close(mid, c, Some(r.Failed()));
        WorksOn(w.E(), old(w.g), mid, w.g, action);
      }
    }

    /** The first half of a reset, which enters the history as soon as it has taken effect. */
    method ZeroCounter(action: string) returns (r: Result<()>, ghost wiped: bool, ghost removed: int)
      requires w.Valid() && Closed(w.g) && action in w.actions
      modifies w`g, w.cnt, w.rdb
      ensures w.Valid() && Closed(w.g) && w.LinesOnly() && w.rdb.sent == old(w.rdb.sent) + 1
      ensures Worked(w.E(), old(w.g), w.g, action) && SameCounts(old(w.g), w.g)
      ensures w.g.calls == old(w.g).calls + if wiped then [Wipe(action, removed)] else []
      ensures action in old(w.g).book && action in w.g.book
      ensures ZeroSent(w.E(), old(w.g).book[action], w.g.book[action], wiped, removed)
      ensures r.Ok? ==> wiped
    {
      hide Closed, Worked, Mirrors, World.Core, Val, ZeroSent, Commanded, Effect;
      w.CoreAt(action);
      r, wiped, removed := w.SendZero(action);
      w.CoreAt(action);
      ZeroLedger(w.E(), old(w.g).book[action], w.g.book[action], action, wiped, removed);
      CommandIsWork(w.E(), old(w.g), w.g, action);
      if wiped {
        w.Close(old(w.g), Wipe(action, removed), None);
      } else {
        StillClosed(w.E(), old(w.g), w.g, action);
      }
    }

    /** The second half of a reset, once the counter is at zero; `from` is where the reset began. */
    method ReportZero(action: string, time: string, ghost from: Books, ghost removed: int) returns (r: Result<()>)
      requires w.Valid() && Closed(w.g) && action in w.actions && action in from.book && action in w.g.book
      requires Worked(w.E(), from, w.g, action) && SameCounts(from, w.g)
      requires w.g.calls == from.calls + [Wipe(action, removed)]
      requires ZeroSent(w.E(), from.book[action], w.g.book[action], true, removed)
      modifies w`g, w.cnt, w.rdb
      ensures w.Valid() && Closed(w.g) && w.LinesOnly()
      ensures w.rdb.sent - old(w.rdb.sent) == |w.g.calls| - |from.calls| - 2
      ensures Worked(w.E(), from, w.g, action) && action in w.g.book
      ensures WasReset(w.E(), from.book[action], w.g.book[action], Zeroing(action, true, r.Failed()), removed)
      ensures ResetCalls(from.calls, w.g.calls, Zeroing(action, true, r.Failed()), removed,
                         Quiet(from.book[action], w.g.book[action]))
      ensures Tried(from, w.g, r.Failed())
    {
      hide Closed, Worked, Mirrors, World.Core, Val, ZeroSent, Reported, WasReset, Effect, Posted, After, BareAfter,
           SameLedger, ResetCalls, Tried, SameCounts;
      ghost var mid, y, actual, applied := w.g, w.g.book[action], 0, false;
      r, actual, applied := SetHeartbeat(action, 0, time);
      WorksOn(w.E(), from, mid, w.g, action);
      StaysAlone(w.E(), mid, w.g, action);
      ghost var c, late := Zeroing(action, true, r.Failed()), w.g;
      ZeroThenReport(w.E(), from.book[action], y, late.book[action], c, removed, Heartbeat(w.host, time, action, 0));
      WorksNowhere(w.E(), late, action);
      ReportedCounts(from, mid, late, c, r.Failed());
      w.Close(late, c, if r.Ok? then Some(None) else None);
      WipedAndReported(from.calls, late.calls, Report(action, 0, actual, applied, r.Failed()), c, removed,
                       Quiet(from.book[action], w.g.book[action]));
      WorksOn(w.E(), from, late, w.g, action);
    }

    /** EXPIRE, or PERSIST without a ttl, for the one or two keys of every action.  All commands of the
        pipeline are sent, and the first error among their answers is the result. */
    method Touch(actions: seq<string>) returns (r: Result<()>)
      requires w.Valid() && Closed(w.g) && actions == w.actions
      modifies w`g, w.cnt, w.rdb
      ensures w.Valid() && Closed(w.g) && w.LinesOnly()
      ensures Rested(w.E(), old(w.g), w.g)
      ensures w.rdb.sent == old(w.rdb.sent) + (if w.heartbeat then 2 * |actions| else |actions|)
      ensures if actions == [] then r.Ok? && w.g == old(w.g) else Tried(old(w.g), w.g, r.Failed())
      ensures r.Ok? && actions != [] ==> w.g.touched && w.g.freshUntil == old(w.g).now + w.ttl && NoneBare(w.g)
      ensures r.Err? ==> w.g.touched == old(w.g).touched && w.g.freshUntil == old(w.g).freshUntil
      ensures r.Err? ==> old(w.g).missed < w.g.missed
    {
      hide Closed, Rested, AllRefreshed, Mirrors, World.Core;
      RestsNowhere(w.E(), w.g);
      if |actions| == 0 {
        return Ok(());
      }
      w.CoreAt(actions[0]);
      r := Ok(());
      for i := 0 to |actions|
        invariant w.Valid() && w.LinesOnly() && w.rdb.sent == old(w.rdb.sent) + (if w.heartbeat then 2 * i else i)
        invariant Rested(w.E(), old(w.g), w.g) && SameRefresh(old(w.g), w.g)
        invariant r.Ok? ==> AllRefreshed(w.E(), w.g, actions[..i], old(w.g).now)
      {
        var e := RefreshKeys(actions, i, old(w.g), r.Ok?);
        if r.Ok? {
          r := e;
        }
      }
      assert actions[..|actions|] == actions;
      RestedClosed(w.E(), old(w.g), w.g);
      RestedMissed(w.E(), old(w.g), w.g);
      w.MarkRefreshed(old(w.g), r.Failed());
    }

    /** One command of the pipeline; `earlier` are the actions whose keys are done. */
    method RefreshKey(a: string, beat: bool, ghost earlier: seq<string>, ghost from: Books, ghost fine: bool)
      returns (r: Result<()>)
      requires w.Valid() && a in w.actions && (beat ==> w.heartbeat)
      requires Rested(w.E(), from, w.g) && SameRefresh(from, w.g)
      requires fine ==> AllRefreshed(w.E(), w.g, earlier, from.now)
      modifies w`g, w.cnt, w.rdb
      ensures w.Valid() && w.LinesOnly() && w.rdb.sent == old(w.rdb.sent) + 1
      ensures Rested(w.E(), from, w.g) && SameRefresh(from, w.g)
      ensures fine ==> AllRefreshed(w.E(), w.g, earlier, from.now)
      ensures a in old(w.g).book && a in w.g.book
      ensures r.Ok? ==> Refreshed(KeyOf(w.g.book[a], beat), from.now, w.g.lastWrite, w.ttl)
      ensures Refreshed(KeyOf(old(w.g).book[a], !beat), from.now, old(w.g).lastWrite, w.ttl) ==>
                Refreshed(KeyOf(w.g.book[a], !beat), from.now, w.g.lastWrite, w.ttl)
    {
      hide Rested, AllRefreshed, Mirrors, World.Core, RefreshSent, Commanded, Refreshed;
      w.CoreAt(a);
      ghost var applied;
      r, applied := w.SendRefresh(a, beat);
      w.CoreAt(a);
      RestsOn(w.E(), from, old(w.g), w.g, a, beat, applied, r.Ok?);
      RefreshSticks(w.E(), old(w.g), w.g, a, beat, from.now, applied, r.Ok?);
      if fine {
        RefreshedOn(w.E(), old(w.g), w.g, earlier, a, beat, from.now, applied, r.Ok?);
      }
    }

    /** The refresh of the one or two keys of one action. */
    method RefreshKeys(actions: seq<string>, i: nat, ghost from: Books, ghost fine: bool) returns (r: Result<()>)
      requires w.Valid() && actions == w.actions && i < |actions|
      requires Rested(w.E(), from, w.g) && SameRefresh(from, w.g)
      requires fine ==> AllRefreshed(w.E(), w.g, actions[..i], from.now)
      modifies w`g, w.cnt, w.rdb
      ensures w.Valid() && w.LinesOnly() && w.rdb.sent == old(w.rdb.sent) + (if w.heartbeat then 2 else 1)
      ensures Rested(w.E(), from, w.g) && SameRefresh(from, w.g)
      ensures fine && r.Ok? ==> AllRefreshed(w.E(), w.g, actions[..i + 1], from.now)
    {
      hide Rested, Mirrors, World.Core, Refreshed;
      var a := actions[i];
      w.CoreAt(a);
      r := RefreshKey(a, false, actions[..i], from, fine);
      if w.heartbeat {
        var e := RefreshKey(a, true, actions[..i], from, fine && r.Ok?);
        if r.Ok? {
          r := e;
        }
      }
      assert actions[..i + 1] == actions[..i] + [a];
    }

    function PerAction(heartbeat: bool): nat {
      if heartbeat then 3 else 1
    }

    /** The bootstrap stopped at action number `i`: the ones before it are done, and no command was sent
        about those after it. */
    ghost predicate StoppedIn(from: Books, sent: nat, actions: seq<string>, i: nat)
      reads w, w.rdb
    {
      && i < |actions| && AllThere(w.E(), from, w.g, actions[..i])
      && i * PerAction(w.heartbeat) < w.rdb.sent - sent <= (i + 1) * PerAction(w.heartbeat)
    }

    /** Creates the keys that do not exist yet: the counter at zero, the monitoring value with the
        total the counter has.  It stops at the first error. */
    method Init(actions: seq<string>, time: string) returns (r: Result<()>)
      requires w.Valid() && Closed(w.g) && actions == w.actions
      modifies w`g, w.cnt, w.rdb
      ensures w.Valid() && Closed(w.g) && w.LinesOnly()
      ensures AllBooted(w.E(), old(w.g), w.g)
      ensures r.Ok? ==> AllThere(w.E(), old(w.g), w.g, actions)
      ensures r.Ok? ==> w.rdb.sent == old(w.rdb.sent) + |actions| * PerAction(w.heartbeat)
      ensures r.Err? ==> exists i: nat :: i < |actions| && StoppedIn(old(w.g), old(w.rdb.sent), actions, i)
      ensures if actions == [] then r.Ok? && w.g == old(w.g) else Tried(old(w.g), w.g, r.Failed())
    {
      hide Closed, AllBooted, AllThere, Mirrors, World.Core;
      BootsNowhere(w.E(), w.g);
      r := Ok(());
      var i := 0;
      while i < |actions| && r.Ok?
        invariant 0 <= i <= |actions| && (r.Err? ==> actions != [])
        invariant w.Valid() && w.LinesOnly()
        invariant AllBooted(w.E(), old(w.g), w.g) && SameRefresh(old(w.g), w.g)
        invariant r.Ok? ==> AllThere(w.E(), old(w.g), w.g, actions[..i])
        invariant r.Ok? ==> w.rdb.sent == old(w.rdb.sent) + i * PerAction(w.heartbeat)
        invariant r.Err? ==> i > 0 && StoppedIn(old(w.g), old(w.rdb.sent), actions, i - 1)
        invariant i == 0 ==> w.g == old(w.g)
        decreases |actions| - i, r.Ok?
      {
        assert actions[..i + 1] == actions[..i] + [actions[i]];
        r := InitKeys(actions[i], time, actions[..i], old(w.g));
        i := i + 1;
      }
      assert actions[..|actions|] == actions;
      BootedClosed(w.E(), old(w.g), w.g);
      if |actions| > 0 {
        w.Conclude(old(w.g), r.Failed());
      }
      if r.Err? {
        assert StoppedIn(old(w.g), old(w.rdb.sent), actions, i - 1);
      }
    }

    /** The bootstrap of one action; `earlier` are the actions already done. */
    method InitKeys(a: string, time: string, ghost earlier: seq<string>, ghost from: Books) returns (r: Result<()>)
      requires w.Valid() && a in w.actions
      requires AllBooted(w.E(), from, w.g) && SameRefresh(from, w.g) && AllThere(w.E(), from, w.g, earlier)
      modifies w`g, w.cnt, w.rdb
      ensures w.Valid() && w.LinesOnly() && old(w.rdb.sent) < w.rdb.sent <= old(w.rdb.sent) + PerAction(w.heartbeat)
      ensures r.Ok? ==> w.rdb.sent == old(w.rdb.sent) + PerAction(w.heartbeat)
      ensures AllBooted(w.E(), from, w.g) && SameRefresh(from, w.g)
      ensures AllThere(w.E(), from, w.g, earlier)
      ensures r.Ok? ==> AllThere(w.E(), from, w.g, earlier + [a])
    {
      hide AllBooted, AllThere, Mirrors, World.Core, Booted, Commanded, Val;
      w.CoreAt(a);
      r := w.SendBootCounter(a);
      w.CoreAt(a);
      BootsCommand(w.E(), from, old(w.g), w.g, a, earlier);
      if r.Ok? && w.heartbeat {
        r := InitHeartbeat(a, time, earlier, from);
      } else if r.Ok? {
        AllThereMore(w.E(), from, w.g, earlier, a);
      }
    }

    method InitHeartbeat(a: string, time: string, ghost earlier: seq<string>, ghost from: Books) returns (r: Result<()>)
      requires w.Valid() && a in w.actions && w.heartbeat && a in w.g.book && w.g.book[a].counter.Some?
      requires AllBooted(w.E(), from, w.g) && SameRefresh(from, w.g) && AllThere(w.E(), from, w.g, earlier)
      modifies w`g, w.cnt, w.rdb
      ensures w.Valid() && w.LinesOnly() && old(w.rdb.sent) < w.rdb.sent <= old(w.rdb.sent) + 2
      ensures r.Ok? ==> w.rdb.sent == old(w.rdb.sent) + 2
      ensures AllBooted(w.E(), from, w.g) && SameRefresh(from, w.g)
      ensures AllThere(w.E(), from, w.g, earlier)
      ensures r.Ok? ==> AllThere(w.E(), from, w.g, earlier + [a])
    {
      hide AllBooted, AllThere, Mirrors, World.Core, Booted, Commanded, Drift, Val;
      var total := w.SendGet(a);
      w.CoreAt(a);
      BootsDrift(w.E(), from, old(w.g), w.g, a, earlier);
      if total.Err? {
        return Err(total.error);
      }
      ghost var g1 := w.g;
      r := w.SendBootBeat(a, time, total.value);
      w.CoreAt(a);
      BootsCommand(w.E(), from, g1, w.g, a, earlier);
      if r.Ok? {
        AllThereMore(w.E(), from, w.g, earlier, a);
      }
    }
  }

  /** The outcome of one call, as the daemon sees it. */
  predicate Tried(g: Books, h: Books, error: Option<Error>) {
    && h.failures == g.failures + (if error.Some? then 1 else 0)
    && h.outages == g.outages + (if IsUnavailable(error) then 1 else 0)
    && h.alarms == g.alarms + (if IsAlarm(error) then 1 else 0)
    && (if error.None? then g.answered < h.answered else h.answered == g.answered)
  }
}
