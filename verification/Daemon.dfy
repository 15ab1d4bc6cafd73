/** The watcher of one log file: it moves the buffered increments to Redis and carries out resets,
    keeping what it could not do for the next flush. */
module Daemons {
  import opened Prelude
  import opened Matching
  import opened Counters
  import opened Keyspace
  import opened Redis
  import opened Ledger
  import opened Commands
  import opened Worlds
  import opened Stores
  import opened Protocol

  class Daemon {
    const w: World
    const store: Store
    var initialized: bool
    var pendingHeartbeats: map<string, int>
    var pendingResets: set<string>
    var redisDown: bool
    var log: seq<Notice>
    ghost var hold: map<string, int>   // drained increments the current flush is still to deal with

    ghost predicate Wired() {
      store.w == w && Distinct(w.actions) && w.actions != []
    }

    /** What is in flight is exactly what the running flush holds in its hands. */
    ghost predicate InHand()
      reads `hold, w, w.cnt
    {
      && AllPositive(hold, w.actions)
      && forall a :: a in w.g.book ==> Get(w.cnt.taken, a) == w.g.book[a].acked + Get(hold, a)
    }

    /** Everything counted at the latest Drain has been taken out of the buffer and not put back. */
    ghost predicate Drained()
      reads w, w.cnt
    {
      forall a :: a in w.g.book ==> Get(w.cnt.taken, a) == w.cnt.Marked(a)
    }

    ghost predicate Fine(a: string, totals: map<string, int>)
      reads `initialized, `pendingResets, w, w.cnt
      requires a in w.g.book
    {
      ActionOk(w.E(), w.g.book[a], initialized, a in pendingResets, Lookup(totals, a), w.cnt.Marked(a), w.agreed)
    }

    ghost predicate AllFine(totals: map<string, int>)
      reads `initialized, `pendingResets, w, w.cnt
    {
      forall a :: a in w.g.book ==> Fine(a, totals)
    }

    /** The daemon only remembers configured actions, and nothing at all before the bootstrap. */
    ghost predicate Minds(totals: map<string, int>)
      reads `initialized, `pendingResets, `hold, w, w.cnt
    {
      && pendingResets <= Elements(w.actions) && totals.Keys <= Elements(w.actions)
      && (!initialized ==> totals == map[] && hold == map[] && forall a :: Get(w.cnt.taken, a) == 0)
    }

    ghost predicate History()
      reads w
    {
      && NoOvertaking(w.g.calls)
      && forall a :: a in w.g.book && Alone(w.g.book[a]) ==> Faithful(w.Initial(a), w.g.calls, a, w.agreed)
    }

    ghost predicate Logged()
      reads `log, `redisDown
    {
      Alternating(log) && (redisDown <==> |log| % 2 == 1)
    }

    /** The invariant, with `totals` in the place of the totals still to be reported. */
    ghost predicate SteadyWith(totals: map<string, int>)
      reads this, w, w.cnt, w.rdb
    {
      && Wired() && w.Valid() && Closed(w.g)
      && Minds(totals) && InHand() && AllFine(totals) && History() && Logged()
    }

    ghost predicate Steady()
      reads this, w, w.cnt, w.rdb
    {
      SteadyWith(pendingHeartbeats) && (!w.heartbeat ==> pendingHeartbeats == map[])
    }

    /** Between flushes nothing is in flight. */
    ghost predicate Valid()
      reads this, w, w.cnt, w.rdb
    {
      Steady() && hold == map[]
    }

    constructor (w: World)
      requires w.Valid() && Closed(w.g) && Distinct(w.actions) && w.actions != []
      requires w.g == Opening(w.E(), w.rdb.db, w.rdb.clock) && w.cnt.taken == map[] && w.cnt.seen == []
      requires w.agreed ==> InAgreement(w.g.book)
      ensures Valid() && this.w == w && !initialized && log == []
    {
      hide Mirrors, Tally, World.Core, Closed;
      this.w := w;
      store := new Store(w);
      initialized, pendingHeartbeats, pendingResets, redisDown := false, map[], {}, false;
      log := [];
      hold := map[];
    }

    /** Every failed call was reported, unless an outage was already known. */
    twostate predicate Told()
      reads `log, `redisDown, w`g
    {
      ToldOf(old(log), old(redisDown), old(w.g).alarms, log, redisDown, w.g.alarms)
    }

    /** Trouble with Redis was logged once, if it was news, and nothing else was. */
    twostate predicate Noticed()
      reads `log, `redisDown, w`g
    {
      NoticedOf(old(log), old(redisDown), old(w.g).alarms, log, redisDown, w.g.alarms)
    }

    method NoteRedisError(error: Error)
      requires Logged()
      modifies `redisDown, `log
      ensures Logged() && Reporting(old(log), log, false)
      ensures log == if error.Canceled? || old(redisDown) then old(log) else old(log) + [Unavailable]
      ensures redisDown <==> old(redisDown) || !error.Canceled?
    {
      if error.Canceled? {
        return;
      }
      if redisDown {
        return;
      }
      redisDown := true;
      log := log + [Unavailable];
    }

    method NoteRedisOK()
      requires Logged()
      modifies `redisDown, `log
      ensures Logged() && Reporting(old(log), log, true) && !redisDown
      ensures log == if old(redisDown) then old(log) + [IsBack] else old(log)
    {
      if redisDown {
        redisDown := false;
        log := log + [IsBack];
      }
    }

    /** A call about action `a` leaves all other actions as they were. */
    twostate lemma OthersFine(new a: string, new totals: map<string, int>, new now: map<string, int>)
      requires old(AllFine(totals)) && Worked(w.E(), old(w.g), w.g, a)
      requires initialized == old(initialized) && w.cnt.seen == old(w.cnt.seen)
      requires OtherMinds(a, old(pendingResets), pendingResets, totals, now)
      requires a in w.g.book ==> Fine(a, now)
      ensures AllFine(now)
    {
      hide Tally, ActionOk, Aside, Lookup;
      forall b | b in w.g.book && b != a
        ensures Fine(b, now)
      {
        assert old(Fine(b, totals));
        assert b in pendingResets - {a} <==> b in old(pendingResets) - {a};
        AsideOk(w.E(), old(w.g).book[b], w.g.book[b], initialized, b in pendingResets, Lookup(totals, b),
                w.cnt.Marked(b), w.agreed);
      }
    }

    lemma FineAt(a: string, totals: map<string, int>)
      requires AllFine(totals) && a in w.g.book
      ensures Fine(a, totals)
    {
    }

    /** A reset keeps the history in order and faithful. */
    twostate lemma ResetInHistory(new c: Call, removed: int)
      requires old(History()) && Onward(w.E(), old(w.g), w.g) && c.Zeroing? && c.action in w.g.book
      requires ResetCalls(old(w.g).calls, w.g.calls, c, removed, Quiet(old(w.g).book[c.action], w.g.book[c.action]))
      requires Alone(w.g.book[c.action]) && c.wiped ==> removed == Held(w.Initial(c.action), old(w.g).calls, c.action)
      ensures History()
    {
      hide Faithful, NoOvertaking, ResetCalls, Late, Held, World.Initial;
      ghost var quiet := Quiet(old(w.g).book[c.action], w.g.book[c.action]);
      ResetHistory(old(w.g).calls, w.g.calls, c, removed, quiet);
      forall a | a in w.g.book && Alone(w.g.book[a])
        ensures Faithful(w.Initial(a), w.g.calls, a, w.agreed)
      {
        AloneBefore(w.E(), old(w.g), w.g, a);
        ResetFaithful(w.Initial(a), old(w.g).calls, w.g.calls, c, removed, quiet, a, w.agreed);
      }
    }

    /** So does any other call that is made when it may be and reports what is true. */
    twostate lemma CallInHistory(new c: Call)
      requires old(History()) && Onward(w.E(), old(w.g), w.g) && w.g.calls == old(w.g).calls + [c] && !c.Wipe?
      requires c.Increment? ==> !Owed(old(w.g).calls, c.action)
      requires c.Report? && c.action in w.g.book && Alone(w.g.book[c.action]) && w.agreed ==> c.lines == c.actual
      ensures History()
    {
      hide Faithful, NoOvertaking, Late, World.Initial;
      NoOvertakingPost(old(w.g).calls, c);
      forall a | a in w.g.book && Alone(w.g.book[a])
        ensures Faithful(w.Initial(a), w.g.calls, a, w.agreed)
      {
        AloneBefore(w.E(), old(w.g), w.g, a);
        FaithfulPost(w.Initial(a), old(w.g).calls, c, a, w.agreed);
      }
    }

    /** A call about action `a` that acknowledges nothing leaves in hand what was in hand. */
    twostate lemma StillInHand(a: string)
      requires old(InHand()) && Worked(w.E(), old(w.g), w.g, a) && a in w.g.book && a in old(w.g).book
      requires w.g.book[a].acked == old(w.g).book[a].acked && hold == old(hold) && w.cnt.taken == old(w.cnt.taken)
      ensures InHand()
    {
      hide Get, Aside, AllPositive;
      OthersKept(w.E(), old(w.g), w.g, a);
    }

    /** The call of a reset, before the daemon takes note of its outcome. */
    method CallReset(action: string, time: string) returns (r: Result<()>)
      requires Steady() && action in w.actions
      modifies w`g, w.cnt, w.rdb
      ensures w.Valid() && Closed(w.g) && InHand() && History() && w.LinesOnly()
      ensures Worked(w.E(), old(w.g), w.g, action) && Tried(old(w.g), w.g, r.Failed())
      ensures action in old(w.g).book && action in w.g.book && (NoneBare(old(w.g)) ==> NoneBare(w.g))
      ensures r.Ok? ==> ZeroedFrom(old(w.g).book[action], w.g.book[action])
      ensures ZeroingEnds(old(w.g), w.g, action, r.Failed())
      ensures ActionOk(w.E(), w.g.book[action], initialized, r.Err?,
                       if r.Ok? then None else Lookup(pendingHeartbeats, action), w.cnt.Marked(action), w.agreed)
    {
      hide ZeroingEnds, NoneBare, Closed, Worked, Mirrors, World.Core, Val, WasReset, ResetCalls, ActionOk, Tally,
           IsUnavailable, ZeroedFrom, HandsOff, Logged, InHand, AllFine, History, Get, Distinct, Onward, Lookup,
           Minds, Held, World.Initial, Alone, Tried;
      ghost var wiped, removed;
      w.CoreAt(action);
      w.HeldAt(action);
      FineAt(action, pendingHeartbeats);
      r, wiped, removed := store.Reset(action, time);
      ghost var c := Zeroing(action, wiped, r.Failed());
      ResetEffects(w.E(), old(w.g), w.g, c, removed);
      ResetEnds(old(w.g), w.g, c, removed, Quiet(old(w.g).book[action], w.g.book[action]));
      ResetOk(w.E(), old(w.g).book[action], w.g.book[action], c, removed, initialized, action in pendingResets,
              Lookup(pendingHeartbeats, action), w.cnt.Marked(action), w.agreed);
      StaysAlone(w.E(), old(w.g), w.g, action);
      ResetInHistory(c, removed);
      StillInHand(action);
      BareKept(w.E(), old(w.g), w.g, action);
    }

    /** Resets one action.  After an error the reset is remembered for the next flush; when a flush
        retries it, it already is. */
    method ResetOne(action: string, time: string) returns (r: Result<()>)
      requires Steady() && action in w.actions
      modifies this, w`g, w.cnt, w.rdb
      ensures Steady() && w.LinesOnly() && initialized == old(initialized) && hold == old(hold)
      ensures Worked(w.E(), old(w.g), w.g, action) && Tried(old(w.g), w.g, r.Failed())
      ensures action in old(w.g).book && action in w.g.book && (NoneBare(old(w.g)) ==> NoneBare(w.g))
      ensures redisDown == old(redisDown) && log == old(log)
      ensures r.Ok? ==>
                pendingResets == old(pendingResets) - {action} && pendingHeartbeats == old(pendingHeartbeats) - {action}
      ensures r.Err? ==> pendingResets == old(pendingResets) + {action} && pendingHeartbeats == old(pendingHeartbeats)
      ensures r.Ok? ==> ZeroedFrom(old(w.g).book[action], w.g.book[action])
      ensures ZeroingEnds(old(w.g), w.g, action, r.Failed())
    {
      hide ZeroingEnds, NoneBare, Closed, Worked, Mirrors, World.Core, ActionOk, Tally, Tried, ZeroedFrom, Logged,
           InHand, AllFine, History, Get, Distinct, Onward;
      ghost var totals := pendingHeartbeats;
      r := CallReset(action, time);
      if r.Ok? {
        pendingResets := pendingResets - {action};
        pendingHeartbeats := pendingHeartbeats - {action};
      } else {
        pendingResets := pendingResets + {action};
      }
      OthersFine(action, totals, pendingHeartbeats);
    }

    /** Remembers a reset that is not even tried. */
    method Defer(action: string)
      requires Steady() && action in w.actions
      modifies `pendingResets, w`g
      ensures Steady() && Worked(w.E(), old(w.g), w.g, action) && SameCounts(old(w.g), w.g)
      ensures pendingResets == old(pendingResets) + {action} && (NoneBare(old(w.g)) ==> NoneBare(w.g))
      ensures w.g.calls == old(w.g).calls + [Deferral(action)] && action in w.g.book
    {
      hide NoneBare, Onward, Closed, Worked, Mirrors, World.Core, Val, ActionOk, Tally, IsUnavailable, HandsOff,
           Logged, InHand, AllFine, History, Get, Filed, Effect, After, Posted;
      ghost var c, totals := Deferral(action), pendingHeartbeats;
      w.CoreAt(action);
      DeferralEffects(w.g, action);
      FineAt(action, totals);
      WorksNowhere(w.E(), w.g, action);
      w.Close(w.g, c, None);
      DeferralOk(w.E(), old(w.g).book[action], initialized, action in pendingResets, Lookup(totals, action),
                 w.cnt.Marked(action), w.agreed);
      StaysAlone(w.E(), old(w.g), w.g, action);
      CallInHistory(c);
      StillInHand(action);
      BareKept(w.E(), old(w.g), w.g, action);
      pendingResets := pendingResets + {action};
      OthersFine(action, totals, pendingHeartbeats);
    }

    /** A call about action `a` that acknowledged `done` increments leaves the rest in hand. */
    twostate lemma LessInHand(new a: string, new done: bool)
      requires old(InHand()) && Worked(w.E(), old(w.g), w.g, a) && a in w.g.book && a in old(w.g).book
      requires w.cnt.taken == old(w.cnt.taken) && hold == (if done then old(hold) - {a} else old(hold))
      requires w.g.book[a].acked == old(w.g).book[a].acked + if done then Get(old(hold), a) else 0
      ensures InHand()
    {
      hide Aside;
      OthersKept(w.E(), old(w.g), w.g, a);
    }

    /** Sends the increments in hand of one action.  On success the monitoring value is behind, and
        the new total is what has to be reported. */
    method SendDelta(action: string, delta: int) returns (r: Result<int>)
      requires Steady() && initialized && action in w.actions && action !in pendingResets
      requires delta == Get(hold, action) && delta > 0 && Drained()
      modifies `hold, w`g, w.cnt, w.rdb
      ensures w.LinesOnly() && action in old(w.g).book && action in w.g.book
      ensures r.Ok? ==> hold == old(hold) - {action} && SteadyWith(pendingHeartbeats[action := r.value])
      ensures r.Ok? ==> !w.g.book[action].unsure
      ensures r.Err? ==> hold == old(hold) && Steady()
      ensures Worked(w.E(), old(w.g), w.g, action) && Tried(old(w.g), w.g, r.Failed())
      ensures r.Ok? ==> Moved(old(w.g).book[action], w.g.book[action], delta)
      ensures IncrementEnds(old(w.g), w.g, action, r.Failed())
    {
      hide Onward, Closed, Worked, Mirrors, World.Core, Val, Incremented, ActionOk, Tally, IsUnavailable, HandsOff,
           Logged, InHand, AllFine, History, Get, Moved, After;
      ghost var applied, extended, totals := false, false, pendingHeartbeats;
      w.CoreAt(action);
      FineAt(action, totals);
      Covers(action);
      r, applied, extended := store.Incr(action, delta);
      ghost var c := Increment(action, delta, applied, r.Failed());
      StaysAlone(w.E(), old(w.g), w.g, action);
      IncrementEffects(w.E(), old(w.g), w.g, c);
      NotOwed(w.E(), old(w.g).book[action], initialized, Lookup(totals, action), w.cnt.Marked(action), w.agreed);
      IncrementOk(w.E(), old(w.g).book[action], w.g.book[action], c, if r.Ok? then r.value else 0,
                  Lookup(totals, action),
                  w.cnt.Marked(action), w.agreed);
      OwedAt(old(w.g), action);
      LastOfOne(old(w.g).calls, c);
      CallInHistory(c);
      if r.Ok? {
        hold := hold - {action};
        OthersFine(action, totals, totals[action := r.value]);
      } else {
        OthersFine(action, totals, totals);
      }
      LessInHand(action, r.Ok?);
    }

    /** Reports a total that is not in the monitoring value yet, or remembers it for the next flush. */
    method SendTotal(action: string, total: int, time: string) returns (r: Result<()>)
      requires SteadyWith(pendingHeartbeats[action := total]) && initialized && action in w.actions
      requires !w.heartbeat ==> pendingHeartbeats == map[]
      requires action !in pendingResets && action in w.g.book && !w.g.book[action].unsure
      modifies `pendingHeartbeats, w`g, w.cnt, w.rdb
      ensures Steady() && w.LinesOnly() && action in w.g.book
      ensures r.Ok? ==> pendingHeartbeats == old(pendingHeartbeats) - {action}
      ensures r.Err? ==> pendingHeartbeats == old(pendingHeartbeats)[action := total]
      ensures Worked(w.E(), old(w.g), w.g, action)
      ensures if w.heartbeat then Tried(old(w.g), w.g, r.Failed()) else r.Ok? && w.g == old(w.g)
      ensures Moved(old(w.g).book[action], w.g.book[action], 0)
      ensures w.heartbeat ==> ReportEnds(old(w.g), w.g, action, r.Failed())
    {
      hide Onward, Closed, Worked, Mirrors, World.Core, Val, Reported, ActionOk, Tally, IsUnavailable, HandsOff,
           Logged, InHand, AllFine, History, Get, Moved;
      ghost var actual, applied, totals := 0, false, pendingHeartbeats[action := total];
      ghost var beat := Heartbeat(w.host, time, action, total);
      FineAt(action, totals);
      r, actual, applied := store.SetHeartbeat(action, total, time);
      StaysAlone(w.E(), old(w.g), w.g, action);
      ReportEffects(w.E(), old(w.g), w.g, action, beat, r.Ok?);
      if w.heartbeat {
        TotalIsActual(w.E(), old(w.g).book[action], total, w.cnt.Marked(action), w.agreed);
        CallInHistory(Report(action, total, actual, applied, r.Failed()));
        LastOfOne(old(w.g).calls, Report(action, total, actual, applied, r.Failed()));
      }
      ReportOk(w.E(), old(w.g).book[action], w.g.book[action], beat, r.Ok?, w.cnt.Marked(action), w.agreed);
      StillInHand(action);
      if r.Ok? {
        pendingHeartbeats := pendingHeartbeats - {action};
      } else {
        pendingHeartbeats := pendingHeartbeats[action := total];
      }
      OthersFine(action, totals, pendingHeartbeats);
    }

    /** The increments of one action and the report of its new total, once no reset is in the way. */
    method FlushDelta(action: string, delta: int, time: string)
      returns (written: bool, retryDelta: bool, err: Option<Error>)
      requires Steady() && initialized && action in w.actions && action !in pendingResets
      requires delta == Get(hold, action) && Drained()
      modifies `hold, `pendingHeartbeats, w`g, w.cnt, w.rdb
      ensures Steady() && w.LinesOnly() && action in old(w.g).book && action in w.g.book
      ensures hold == if err.Some? && retryDelta then old(hold) else old(hold) - {action}
      ensures Worked(w.E(), old(w.g), w.g, action) && Attempted(old(w.g), w.g, err)
      ensures err.None? && (delta > 0 || action in old(pendingHeartbeats)) ==> old(w.g).answered < w.g.answered
      ensures written <==> err.None? && (delta > 0 || action in old(pendingHeartbeats))
      ensures err.None? ==> action !in pendingHeartbeats
      ensures forall b :: b != action ==> Lookup(pendingHeartbeats, b) == Lookup(old(pendingHeartbeats), b)
      ensures err.None? ==> Moved(old(w.g).book[action], w.g.book[action], delta)
      ensures CameTo(action, old(w.g), w.g, false, Lookup(old(pendingHeartbeats), action), delta,
                     false, Lookup(pendingHeartbeats, action), if err.Some? && retryDelta then delta else 0, err)
    {
      hide CameTo, ReportEnds, IncrementEnds, Closed, Worked, Mirrors, World.Core, Val, ActionOk, Tally, HandsOff,
           Logged, AllFine, History, Moved, InHand, AllPositive;
      w.CoreAt(action);
      var total, hasPending := Get(pendingHeartbeats, action), action in pendingHeartbeats;
      NothingMoved(w.E(), w.g, action);
      NotInHand(action);
      NothingCame(w.g, action);
      if delta == 0 && !hasPending {
        return false, false, None;
      }
      if delta > 0 {
        var n := SendDelta(action, delta);
        if n.Err? {
          IncrementFails(action, old(w.g), w.g, Lookup(pendingHeartbeats, action), delta, n.error);
          return false, true, Some(n.error);
        }
        total := n.value;
      } else {
        Covers(action);
        FineAt(action, pendingHeartbeats);
        NotUnsure(w.E(), w.g.book[action], initialized, Lookup(pendingHeartbeats, action), w.cnt.Marked(action),
                  w.agreed);
        assert pendingHeartbeats[action := total] == pendingHeartbeats;
      }
      ghost var mid := w.g;
      var r := SendTotal(action, total, time);
      WorksOn(w.E(), old(w.g), mid, w.g, action);
      MovesOn(w.E(), old(w.g), mid, w.g, action, delta, 0);
      ReportCame(w.E(), action, old(w.g), mid, w.g, Lookup(old(pendingHeartbeats), action), delta,
                 Lookup(pendingHeartbeats, action), r.Failed());
      return r.Ok?, false, r.Failed();
    }

    /** One action of the pass: a remembered reset, then the increments in hand, then the report.
        `retryDelta` says whether `hold` still has the increments, which it has not once their call
        succeeded. */
    method FlushAction(action: string, delta: int, time: string)
      returns (written: bool, retryDelta: bool, err: Option<Error>)
      requires Steady() && initialized && action in w.actions
      requires delta == Get(hold, action) && Drained()
      modifies this, w`g, w.cnt, w.rdb
      ensures Steady() && w.LinesOnly() && initialized && action in old(w.g).book && action in w.g.book
      ensures redisDown == old(redisDown) && log == old(log)
      ensures hold == if err.Some? && retryDelta then old(hold) else old(hold) - {action}
      ensures Worked(w.E(), old(w.g), w.g, action) && Attempted(old(w.g), w.g, err)
      ensures err.None? ==> action !in pendingHeartbeats && action !in pendingResets
      ensures err.None? && HasWork(action, old(Memory())) ==> old(w.g).answered < w.g.answered
      ensures written <==>
              err.None? && (delta > 0 || (action in old(pendingHeartbeats) && action !in old(pendingResets)))
      ensures OtherMinds(action, old(pendingResets), pendingResets, old(pendingHeartbeats), pendingHeartbeats)
      ensures err.None? ==> Flushed(old(w.g).book[action], w.g.book[action], action in old(pendingResets), delta)
      ensures CameTo(action, old(w.g), w.g, action in old(pendingResets), Lookup(old(pendingHeartbeats), action), delta,
                     action in pendingResets, Lookup(pendingHeartbeats, action),
                     if err.Some? && retryDelta then delta else 0, err)
    {
      hide CameTo, ZeroingEnds, Closed, Worked, Mirrors, World.Core, Val, ActionOk, Tally, HandsOff, Logged, AllFine,
           History, InHand, AllPositive, Moved, ZeroedFrom, Flushed, Get;
      w.CoreAt(action);
      if action in pendingResets {
        var r := ResetOne(action, time);
        if r.Err? {
          ResetFails(action, old(w.g), w.g, Lookup(pendingHeartbeats, action), delta, r.error);
          return false, true, Some(r.error);
        }
        ghost var mid := w.g;
        StillDrained(action);
        written, retryDelta, err := FlushDelta(action, delta, time);
        WorksOn(w.E(), old(w.g), mid, w.g, action);
        ResetThenCame(w.E(), action, old(w.g), mid, w.g, Lookup(old(pendingHeartbeats), action), delta,
                      Lookup(pendingHeartbeats, action), if err.Some? && retryDelta then delta else 0, err);
        ResetThenFlush(w.E(), old(w.g), mid, w.g, action, delta, err.None?);
      } else {
        written, retryDelta, err := FlushDelta(action, delta, time);
        JustFlush(w.E(), old(w.g), w.g, action, delta);
      }
    }

    twostate lemma StillDrained(new a: string)
      requires old(Drained()) && Worked(w.E(), old(w.g), w.g, a)
      requires w.cnt.taken == old(w.cnt.taken) && w.cnt.seen == old(w.cnt.seen)
      ensures Drained()
    {
      hide Tally, Get, Aside;
    }

    lemma StartPass()
      requires Wired() && w.Valid()
      ensures Progress(w.actions, 0, Pass(w.g, Memory(), w.g, Memory(), map[], 0))
      ensures Reached(w.actions, 0, Pass(w.g, Memory(), w.g, Memory(), map[], 0))
    {
      hide Mirrors, Tally, Sound;
      NoneReached(w.actions, Pass(w.g, Memory(), w.g, Memory(), map[], 0));
      NoneTouched(w.actions, Pass(w.g, Memory(), w.g, Memory(), map[], 0));
    }

    lemma AllSetAside(p: Pass)
      requires Progress(w.actions, |w.actions|, p) && InHand() && p.m.hold == hold
      requires AllPositive(p.unwritten, w.actions)
      ensures hold == p.unwritten
    {
      hide Progress;
      SetAside(w.actions, p);
    }

    /** Flushes one action and notes its error. */
    method TryFlush(action: string, delta: int, time: string) returns (retry: bool, err: Option<Error>)
      requires Steady() && initialized && action in w.actions
      requires delta == Get(hold, action) && Drained()
      modifies this, w`g, w.cnt, w.rdb
      ensures Steady() && initialized && w.LinesOnly() && Drained() && Along(w.E(), old(w.g), w.g, true) && Told()
      ensures action in old(w.g).book && action in w.g.book
      ensures Reporting(old(log), log, false)
      ensures Noticed()
      ensures hold == if err.Some? && retry then old(hold) else old(hold) - {action}
      ensures Worked(w.E(), old(w.g), w.g, action) && Attempted(old(w.g), w.g, err)
      ensures err.None? ==> action !in pendingHeartbeats && action !in pendingResets
      ensures err.None? && HasWork(action, old(Memory())) ==> old(w.g).answered < w.g.answered
      ensures OtherMinds(action, old(pendingResets), pendingResets, old(pendingHeartbeats), pendingHeartbeats)
      ensures err.None? ==> Flushed(old(w.g).book[action], w.g.book[action], action in old(pendingResets), delta)
      ensures CameTo(action, old(w.g), w.g, action in old(pendingResets), Lookup(old(pendingHeartbeats), action), delta,
                     action in pendingResets, Lookup(pendingHeartbeats, action),
                     if err.Some? && retry then delta else 0, err)
    {
      hide CameTo, Along, Closed, Worked, Mirrors, World.Core, ActionOk, Tally, Logged, AllFine, History, InHand,
           Flushed, Get, HasWork, Drained, Reporting, OtherMinds;
      LogsNothing(log);
      var ok;
      ok, retry, err := FlushAction(action, delta, time);
      StillDrained(action);
      WorkAlong(w.E(), old(w.g), w.g, action);
      if err.Some? {
        NoteRedisError(err.value);
      }
    }

    /** One step of the pass: the next action is flushed, or skipped. */
    method FlushNext(i: nat, deltas: map<string, int>, time: string, ghost g0: Books, ghost m0: Mind,
                     unwritten0: map<string, int>, errs0: int, unreachable0: bool, ghost n0: nat)
      returns (unwritten: map<string, int>, errs: int, unreachable: bool, ghost n: nat)
      requires Steady() && initialized && Drained() && i < |w.actions| && m0.hold == deltas
      requires errs0 >= 0 && (unreachable0 ==> errs0 > 0) && AllPositive(unwritten0, w.actions)
      requires g0.answered <= w.g.answered
      requires Progress(w.actions, i, Pass(g0, m0, w.g, Memory(), unwritten0, errs0))
      requires Reached(w.actions, n0, Pass(g0, m0, w.g, Memory(), unwritten0, errs0)) && (!unreachable0 ==> n0 == i)
      requires unreachable0 <==> Stopped(w.actions, n0, Pass(g0, m0, w.g, Memory(), unwritten0, errs0))
      modifies this, w`g, w.cnt, w.rdb
      ensures Steady() && initialized && w.LinesOnly() && Drained() && Along(w.E(), old(w.g), w.g, true) && Told()
      ensures errs >= errs0 && w.g.failures - old(w.g).failures == errs - errs0
      ensures w.g.outages - old(w.g).outages == (if unreachable && !unreachable0 then 1 else 0)
      ensures (unreachable0 ==> unreachable) && (unreachable ==> errs > 0)
      ensures AllPositive(unwritten, w.actions) && old(w.g).answered <= w.g.answered
      ensures Reporting(old(log), log, false) && (errs == errs0 ==> w.g.alarms == old(w.g).alarms)
      ensures Noticed()
      ensures Progress(w.actions, i + 1, Pass(g0, m0, w.g, Memory(), unwritten, errs))
      ensures Reached(w.actions, n, Pass(g0, m0, w.g, Memory(), unwritten, errs)) && (!unreachable ==> n == i + 1)
      ensures unreachable <==> Stopped(w.actions, n, Pass(g0, m0, w.g, Memory(), unwritten, errs))
    {
      hide CameTo, Attended, PassedOver, Reached, Stops, Fails, Along, Closed, Worked, Mirrors, World.Core, ActionOk,
           Tally, Logged, AllFine, History, InHand, Flushed, Get, Untouched, Finished, Progress, HasWork, Distinct,
           Elements, Lookup, Drained, Reporting;
      unwritten, errs, unreachable, n := unwritten0, errs0, unreachable0, n0;
      var action := w.actions[i];
      var delta := Get(deltas, action);
      ghost var p := Pass(g0, m0, w.g, Memory(), unwritten0, errs0);
      var err: Option<Error>, retry: bool := None, true;
      w.CoreAt(action);
      NextInPass(w.actions, i, p);
      NotInHand(action);
      WorksNowhere(w.E(), w.g, action);
      AlongNowhere(w.E(), w.g);
      LogsNothing(log);
      if !unreachable {
        retry, err := TryFlush(action, delta, time);
        if err.Some? {
          errs := errs + 1;
          unreachable := IsUnavailable(err);
        }
      }
      if (unreachable0 || err.Some?) && retry && delta > 0 {
        unwritten := unwritten[action := delta];
      }
      ghost var q := Pass(g0, m0, w.g, Memory(), unwritten, errs);
      ElsewhereKept(action, p, q);
      if unreachable0 || err.Some? {
        FinishedBadly(action, p, q, retry);
      } else {
        FinishedWell(action, p, q);
      }
      OneMoreFinished(w.E(), w.actions, i, p, q);
      if unreachable0 {
        OneMoreSkipped(w.actions, n, p, q);
      } else {
        n := i + 1;
        NotTriedYet(w.actions, i, p);
        HandedOver(old(hold), action);
        AttendedNow(w.E(), action, p, q, err);
        OneMoreTried(w.E(), w.actions, i, p, q);
        OutOfReachIsUnavailable(err);
      }
    }

    /** One pass over the actions.  Once Redis is known to be unreachable the remaining actions are
        not tried; their increments are set aside like those whose call failed. */
    method FlushActions(deltas: map<string, int>, time: string)
      returns (unwritten: map<string, int>, errs: int, unreachable: bool, ghost n: nat)
      requires Steady() && initialized && hold == deltas && Drained()
      modifies this, w`g, w.cnt, w.rdb
      ensures Steady() && initialized && w.LinesOnly() && Drained() && Along(w.E(), old(w.g), w.g, true) && Told()
      ensures hold == unwritten && old(w.g).answered <= w.g.answered
      ensures errs >= 0 && w.g.failures == old(w.g).failures + errs
      ensures w.g.outages == old(w.g).outages + if unreachable then 1 else 0
      ensures unreachable ==> errs > 0
      ensures Reporting(old(log), log, false) && (errs == 0 ==> w.g.alarms == old(w.g).alarms)
      ensures Noticed()
      ensures Progress(w.actions, |w.actions|, Pass(old(w.g), old(Memory()), w.g, Memory(), unwritten, errs))
      ensures Reached(w.actions, n, Pass(old(w.g), old(Memory()), w.g, Memory(), unwritten, errs))
      ensures unreachable <==> Stopped(w.actions, n, Pass(old(w.g), old(Memory()), w.g, Memory(), unwritten, errs))
      ensures !unreachable ==> n == |w.actions|
    {
      hide ToldOf, NoticedOf, Attended, PassedOver, Reached, Stops, Fails, EndNotices, Along, Closed, Worked, Mirrors,
           World.Core, ActionOk, Tally, Logged, AllFine, History, InHand, Flushed, Get, Untouched, Finished,
           IsUnavailable, HasWork, Distinct, Elements, Lookup, Drained, Reporting;
      unwritten, errs, unreachable, n := map[], 0, false, 0;
      ghost var g0, m0 := w.g, Memory();
      StartPass();
      LogsNothing(log);
      NoticedNothing(log, redisDown, w.g.alarms);
      AlongNowhere(w.E(), w.g);
      for i := 0 to |w.actions|
        invariant Steady() && initialized && w.LinesOnly() && Drained() && Along(w.E(), old(w.g), w.g, true)
        invariant errs >= 0 && w.g.failures == g0.failures + errs
        invariant w.g.outages == g0.outages + if unreachable then 1 else 0
        invariant unreachable ==> errs > 0
        invariant AllPositive(unwritten, w.actions) && g0.answered <= w.g.answered
        invariant Reporting(old(log), log, false) && (errs == 0 ==> w.g.alarms == old(w.g).alarms)
        invariant Noticed()
        invariant Reached(w.actions, n, Pass(g0, m0, w.g, Memory(), unwritten, errs)) && (!unreachable ==> n == i)
        invariant unreachable <==> Stopped(w.actions, n, Pass(g0, m0, w.g, Memory(), unwritten, errs))
        invariant Progress(w.actions, i, Pass(g0, m0, w.g, Memory(), unwritten, errs))
      {
        ghost var before, down, was := log, redisDown, w.g;
        unwritten, errs, unreachable, n := FlushNext(i, deltas, time, g0, m0, unwritten, errs, unreachable, n);
        NoticedOn(old(log), old(redisDown), old(w.g).alarms, before, down, was.alarms, log, redisDown, w.g.alarms);
        ReportingOn(old(log), before, log, false, false);
        AlongOn(w.E(), old(w.g), was, w.g, true, true);
      }
      NoticedTells(old(log), old(redisDown), old(w.g).alarms, log, redisDown, w.g.alarms);
      AllSetAside(Pass(g0, m0, w.g, Memory(), unwritten, errs));
    }

    // ---------- bootstrap and refresh ----------

    /** While the daemon works on no action in particular, nothing it relies on is lost. */
    twostate lemma RestsFine(new totals: map<string, int>)
      requires old(AllFine(totals)) && Rested(w.E(), old(w.g), w.g)
      requires initialized == old(initialized) && pendingResets == old(pendingResets)
      requires w.cnt.Valid() && old(w.cnt.seen) <= w.cnt.seen
      ensures AllFine(totals)
    {
      hide ActionOk, Aside, Lookup, Tally;
      forall a | a in w.g.book
        ensures Fine(a, totals)
      {
        assert old(Fine(a, totals));
        TallyGrows(w.cnt.rule, w.cnt.actions, old(w.cnt.seen), w.cnt.seen, a);
        MarkedMoreOk(w.E(), old(w.g).book[a], w.g.book[a], initialized, a in pendingResets, Lookup(totals, a),
                     old(w.cnt.Marked(a)), w.cnt.Marked(a), w.agreed);
      }
    }

    twostate lemma RestsHistory()
      requires old(History()) && Onward(w.E(), old(w.g), w.g) && w.g.calls == old(w.g).calls
      ensures History()
    {
      hide Faithful, NoOvertaking, Late, World.Initial;
      forall a | a in w.g.book && Alone(w.g.book[a])
        ensures Faithful(w.Initial(a), w.g.calls, a, w.agreed)
      {
        AloneBefore(w.E(), old(w.g), w.g, a);
      }
    }

    twostate lemma RestsInHand()
      requires old(InHand()) && SameAcked(old(w.g), w.g)
      requires hold == old(hold) && w.cnt.taken == old(w.cnt.taken)
      ensures InHand()
    {
      hide AllPositive, Get;
    }

    twostate lemma RestsSteady()
      requires old(Steady()) && w.Valid() && Closed(w.g) && Rested(w.E(), old(w.g), w.g)
      requires w.cnt.taken == old(w.cnt.taken) && w.cnt.seen == old(w.cnt.seen)
      requires initialized == old(initialized) && pendingResets == old(pendingResets) && hold == old(hold)
      requires pendingHeartbeats == old(pendingHeartbeats) && redisDown == old(redisDown) && log == old(log)
      ensures Steady()
    {
      hide Closed, Rested, AllFine, History, InHand, Mirrors, World.Core, Logged, SameAcked, Tally;
      w.BufferIsValid();
      RestedAcked(w.E(), old(w.g), w.g);
      RestsFine(pendingHeartbeats);
      RestsHistory();
      RestsInHand();
    }

    /** One refresh of all keys; an error is noted and otherwise ignored. */
    method TouchKeys() returns (reached: bool)
      requires Steady()
      modifies `redisDown, `log, w`g, w.cnt, w.rdb
      ensures Steady() && w.LinesOnly() && Rested(w.E(), old(w.g), w.g) && Told()
      ensures w.g.failures == old(w.g).failures + (if reached then 0 else 1)
      ensures w.g.outages <= old(w.g).outages + (if reached then 0 else 1)
      ensures reached ==> old(w.g).answered < w.g.answered && Renewed(w.E(), old(w.g), w.g) && w.g.touched
      ensures log == old(log) + EndNotices(old(redisDown), old(w.g).alarms < w.g.alarms, false)
      ensures redisDown <==> old(redisDown) || old(w.g).alarms < w.g.alarms
      ensures reached ==> old(w.g).alarms == w.g.alarms
      ensures !reached ==> old(w.g).missed < w.g.missed && w.g.answered == old(w.g).answered
      ensures Reporting(old(log), log, false)
    {
      hide Closed, Rested, AllFine, History, InHand, Mirrors, World.Core, Logged, Reporting, Minds, NoneBare;
      EndReporting(log, redisDown, false, false);
      EndReporting(log, redisDown, true, false);
      var r := store.Touch(w.actions);
      RestsSteady();
      if r.Err? {
        NoteRedisError(r.error);
      }
      reached := r.Ok?;
    }

    /** The refresh of a flush.  With the expiry switched off nothing is sent, so that Redis cannot be
        said to have answered although nothing failed. */
    method RefreshTTL() returns (reached: bool)
      requires Steady()
      modifies `redisDown, `log, w`g, w.cnt, w.rdb
      ensures Steady() && w.LinesOnly() && Rested(w.E(), old(w.g), w.g) && Told()
      ensures Along(w.E(), old(w.g), w.g, true)
      ensures reached <==> old(w.g).answered < w.g.answered
      ensures w.ttl == 0 || !initialized ==> !reached && w.g == old(w.g)
      ensures w.ttl > 0 && initialized ==> (reached <==> w.g.failures == old(w.g).failures)
      ensures initialized && w.g.failures == old(w.g).failures ==> Renewed(w.E(), old(w.g), w.g)
      ensures w.ttl > 0 && initialized && !reached ==> old(w.g).missed < w.g.missed
      ensures initialized && reached ==> Renewed(w.E(), old(w.g), w.g)
      ensures w.g.outages <= old(w.g).outages + 1
      ensures log == old(log) + EndNotices(old(redisDown), old(w.g).alarms < w.g.alarms, false)
      ensures redisDown <==> old(redisDown) || old(w.g).alarms < w.g.alarms
      ensures w.g.failures == old(w.g).failures ==> old(w.g).alarms == w.g.alarms
      ensures Reporting(old(log), log, false)
    {
      hide Along, Closed, Rested, AllFine, History, InHand, Mirrors, World.Core, Logged, Reporting, Minds,
           World.Valid, NoneBare;
      if w.ttl <= 0 || !initialized {
        RestsNowhere(w.E(), w.g);
        LogsNothing(log);
        AlongNowhere(w.E(), w.g);
        return false;
      }
      reached := TouchKeys();
      RestAlong(w.E(), old(w.g), w.g);
    }

    twostate lemma BootsFine()
      requires old(AllFine(map[])) && old(!initialized) && AllBooted(w.E(), old(w.g), w.g)
      requires pendingResets == old(pendingResets) && w.cnt.seen == old(w.cnt.seen)
      requires initialized ==> AllThere(w.E(), old(w.g), w.g, w.actions)
      requires w.g.book.Keys == Elements(w.actions)
      ensures AllFine(map[])
    {
      hide ActionOk, Booted, Tally, KeysThere;
      forall a | a in w.g.book
        ensures Fine(a, map[])
      {
        assert old(Fine(a, map[]));
        BootedOk(w.E(), old(w.g).book[a], w.g.book[a], initialized, a in pendingResets,
                 w.cnt.Marked(a), w.agreed);
      }
    }

    twostate lemma BootsSteady()
      requires old(Steady()) && old(!initialized) && w.Valid() && AllBooted(w.E(), old(w.g), w.g) && w.LinesOnly()
      requires pendingResets == old(pendingResets) && hold == old(hold)
      requires pendingHeartbeats == old(pendingHeartbeats) && redisDown == old(redisDown) && log == old(log)
      requires initialized ==> AllThere(w.E(), old(w.g), w.g, w.actions)
      ensures Steady()
    {
      hide Closed, AllBooted, AllThere, AllFine, History, InHand, Mirrors, World.Core, Logged, SameAcked, Tally;
      w.BufferIsValid();
      BootedClosed(w.E(), old(w.g), w.g);
      BootedAcked(w.E(), old(w.g), w.g);
      BootsFine();
      RestsHistory();
      RestsInHand();
    }

    /** The bootstrap is through: an outage is over, and the keys are refreshed for the first time. */
    method FirstRefresh()
      requires Valid() && initialized
      modifies `redisDown, `log, w`g, w.cnt, w.rdb
      ensures Valid() && w.LinesOnly() && Rested(w.E(), old(w.g), w.g) && Told()
      ensures log == old(log) + EndNotices(old(redisDown), false, true)
                     + EndNotices(false, old(w.g).alarms < w.g.alarms, false)
      ensures redisDown <==> old(w.g).alarms < w.g.alarms
      ensures old(w.g).alarms <= w.g.alarms
      ensures w.g.failures == old(w.g).failures ==> !redisDown && w.g.touched
      ensures w.g.touched || old(w.g).missed < w.g.missed
      ensures w.g.outages <= old(w.g).outages + 1
      ensures Reporting(old(log), log, true)
    {
      hide Closed, AllFine, History, InHand, Mirrors, World.Core, Logged, Reporting, Minds, Rested;
      NoteRedisOK();
      ghost var before := log;
      var _ := TouchKeys();
      RestedAcked(w.E(), old(w.g), w.g);
      ReportingOn(old(log), before, log, true, false);
    }

    /** Bootstraps the keys unless that has been done; the result is the new value of `initialized`. */
    method EnsureInit(time: string) returns (ready: bool)
      requires Valid()
      modifies `initialized, `redisDown, `log, w`g, w.cnt, w.rdb
      ensures Valid() && w.LinesOnly() && Along(w.E(), old(w.g), w.g, old(initialized)) && StandsStill(old(w.g), w.g)
      ensures Told()
      ensures ready == initialized
      ensures !ready ==> w.g.answered == old(w.g).answered && w.g.failures == old(w.g).failures + 1
      ensures ready && !old(initialized) ==> old(w.g).answered < w.g.answered
      ensures ready && !old(initialized) ==> w.g.touched || old(w.g).missed < w.g.missed
      ensures !ready ==> log == old(log) + EndNotices(old(redisDown), old(w.g).alarms < w.g.alarms, false)
      ensures !ready ==> (redisDown <==> old(redisDown) || old(w.g).alarms < w.g.alarms)
      ensures ready && !old(initialized) ==> (redisDown <==> old(w.g).alarms < w.g.alarms)
      ensures ready && !old(initialized) ==>
                log == old(log) + EndNotices(old(redisDown), false, true)
                       + EndNotices(false, old(w.g).alarms < w.g.alarms, false)
      ensures old(w.g).alarms <= w.g.alarms
      ensures (old(initialized) ==> ready && w.g == old(w.g) && redisDown == old(redisDown) && log == old(log))
      ensures old(w.g).answered <= w.g.answered && old(w.g).failures <= w.g.failures && w.g.calls == old(w.g).calls
      ensures w.g.failures == old(w.g).failures ==> ready && (old(initialized) || (!redisDown && w.g.touched))
      ensures old(w.g).outages <= w.g.outages <= old(w.g).outages + (if old(initialized) then 0 else 1)
      ensures Reporting(old(log), log, old(w.g).answered < w.g.answered)
    {
      hide Closed, AllBooted, AllThere, AllFine, History, InHand, Mirrors, World.Core, Logged, Reporting, Minds,
           Rested, StandsStill;
      LogsNothing(log);
      BootsNowhere(w.E(), w.g);
      BootedStands(w.E(), w.g, w.g);
      if initialized {
        return true;
      }
      var r := store.Init(w.actions, time);
      BootedStands(w.E(), old(w.g), w.g);
      BootedAcked(w.E(), old(w.g), w.g);
      initialized := r.Ok?;
      BootsSteady();
      if r.Err? {
        NoteRedisError(r.error);
        ReportsLess(old(log), log, old(w.g).answered < w.g.answered);
        return false;
      }
      ghost var mid := w.g;
      OnwardKeys(w.E(), old(w.g), mid);
      FirstRefresh();
      RestedStands(w.E(), mid, w.g);
      RestedAcked(w.E(), mid, w.g);
      StandsOn(old(w.g), mid, w.g);
      return true;
    }

    // ---------- a whole flush ----------

    /** What a flush without a failed call comes to: nothing is left to do, the buffer holds only what
        arrived after the Drain, and every counter moved by exactly what was drained. */
    twostate predicate Converged()
      reads this, w, w.cnt
    {
      && initialized && pendingResets == {} && pendingHeartbeats == map[] && Drained()
      && old(w.cnt.processed) <= w.cnt.seen
      && (redisDown ==> old(redisDown) && w.ttl == 0 && old(Idle()) && w.cnt.SameTaken())
      && AllFlushed(old(w.g), w.g, old(pendingResets), Minus(w.cnt.taken, old(w.cnt.taken)))
    }

    predicate Idle()
      reads `pendingHeartbeats, `pendingResets
    {
      pendingHeartbeats == map[] && pendingResets == {}
    }

    /** The buffer has just been drained into the hands of the flush. */
    twostate lemma TakesSteady()
      requires old(Valid()) && w.Valid() && Drift(w.E(), old(w.g), w.g) && w.LinesGrow()
      requires initialized == old(initialized) && pendingResets == old(pendingResets) && initialized
      requires pendingHeartbeats == old(pendingHeartbeats) && redisDown == old(redisDown) && log == old(log)
      requires AllPositive(hold, w.actions) && w.cnt.taken == Plus(old(w.cnt.taken), hold)
      requires old(w.cnt.seen) <= w.cnt.seen
      ensures Steady()
    {
      hide Closed, Rested, AllFine, History, Mirrors, World.Core, Logged, SameAcked, Tally, Drift, AllPositive, Plus;
      w.BufferIsValid();
      DriftRests(w.E(), old(w.g), w.g);
      DriftClosed(w.E(), old(w.g), w.g);
      RestedAcked(w.E(), old(w.g), w.g);
      RestsFine(pendingHeartbeats);
      RestsHistory();
      TakesInHand();
    }

    twostate lemma TakesInHand()
      requires old(InHand()) && old(hold) == map[] && SameAcked(old(w.g), w.g)
      requires AllPositive(hold, w.actions) && w.cnt.taken == Plus(old(w.cnt.taken), hold)
      ensures InHand()
    {
      hide AllPositive;
    }

    /** What is still in hand goes back into the buffer. */
    method PutBackAll(unwritten: map<string, int>)
      requires Steady() && initialized && hold == unwritten
      modifies `hold, w`g, w.cnt, w.rdb
      ensures Valid() && w.LinesGrow() && Rested(w.E(), old(w.g), w.g) && SameCounts(old(w.g), w.g)
      ensures Along(w.E(), old(w.g), w.g, true)
      ensures w.cnt.taken == Minus(old(w.cnt.taken), unwritten) && w.cnt.seen == old(w.cnt.seen)
    {
      hide Along, Closed, Rested, AllFine, History, Mirrors, World.Core, Logged, SameAcked, Tally, Minus, Get,
           AllPositive;
      w.PutBack(unwritten);
      hold := map[];
      w.BufferIsValid();
      DriftRests(w.E(), old(w.g), w.g);
      DriftAlong(w.E(), old(w.g), w.g);
      DriftClosed(w.E(), old(w.g), w.g);
      RestedAcked(w.E(), old(w.g), w.g);
      RestsFine(pendingHeartbeats);
      RestsHistory();
      PutsInHand();
    }

    twostate lemma PutsInHand()
      requires old(InHand()) && hold == map[] && SameAcked(old(w.g), w.g)
      requires w.cnt.taken == Minus(old(w.cnt.taken), old(hold))
      ensures InHand()
    {
    }

    /** Something that is still to be done belongs to a configured action. */
    lemma SomeWork()
      requires Steady() && !(hold == map[] && Idle())
      ensures exists a :: a in w.actions && HasWork(a, Memory())
    {
      hide Closed, AllFine, History, Mirrors, World.Core, Logged, Tally;
      if hold != map[] {
        var a :| a in hold;
        assert HasWork(a, Memory());
      } else if pendingHeartbeats != map[] {
        var a :| a in pendingHeartbeats;
        assert a in Elements(w.actions) && HasWork(a, Memory());
      } else {
        var a :| a in pendingResets;
        assert a in Elements(w.actions) && HasWork(a, Memory());
      }
    }

    /** A pass without errors leaves nothing to be done. */
    lemma PassDone(p: Pass)
      requires Steady() && Progress(w.actions, |w.actions|, p) && p.errs == 0 && p.g == w.g && p.m == Memory()
      requires p.unwritten == hold && p.g0.book.Keys == w.g.book.Keys
      requires exists a :: a in w.actions && HasWork(a, p.m0)
      ensures Idle() && hold == map[] && p.g0.answered < w.g.answered
      ensures AllFlushed(p.g0, w.g, p.m0.resets, p.m0.hold)
    {
      hide Closed, AllFine, History, Mirrors, Logged, Tally, Progress, HasWork, AllFlushed;
      w.BufferIsValid();
      AllFinished(w.actions, p);
      PassFlushed(w.actions, p);
    }

    /** The end of a flush: the keys are refreshed unless Redis is unreachable, and if all writes
        succeeded an outage is over. */
    method EndFlush(errs: int, unreachable: bool)
      requires Valid() && initialized
      modifies `redisDown, `log, w`g, w.cnt, w.rdb
      ensures Valid() && w.LinesOnly() && Rested(w.E(), old(w.g), w.g) && Told()
      ensures Along(w.E(), old(w.g), w.g, true)
      ensures w.g.outages <= old(w.g).outages + (if unreachable then 0 else 1)
      ensures log == old(log) + EndNotices(old(redisDown), old(w.g).alarms < w.g.alarms, errs == 0)
      ensures redisDown <==> errs != 0 && (old(redisDown) || old(w.g).alarms < w.g.alarms)
      ensures unreachable || w.ttl == 0 || Renewed(w.E(), old(w.g), w.g) || old(w.g).missed < w.g.missed
      ensures w.g.failures == old(w.g).failures && !unreachable ==> Renewed(w.E(), old(w.g), w.g)
      ensures unreachable ==> w.g == old(w.g)
    {
      hide Along, Closed, Mirrors, World.Core, Tally, Logged, AllFine, History, InHand, Reporting, Rested, Minds,
           Renewed;
      RestsNowhere(w.E(), w.g);
      AlongNowhere(w.E(), w.g);
      if !unreachable {
        var _ := RefreshTTL();
      }
      if errs == 0 {
        NoteRedisOK();
      }
    }

    /** What follows the pass: increments that were not written go back into the buffer, and then comes
        the end of the flush. */
    method FinishPass(unwritten: map<string, int>, errs: int, unreachable: bool)
      requires Steady() && initialized && hold == unwritten
      modifies `hold, `redisDown, `log, w`g, w.cnt, w.rdb
      ensures Valid() && w.LinesGrow() && Rested(w.E(), old(w.g), w.g) && w.cnt.seen == old(w.cnt.seen) && Told()
      ensures Along(w.E(), old(w.g), w.g, true)
      ensures w.g.outages <= old(w.g).outages + (if unreachable then 0 else 1)
      ensures log == old(log) + EndNotices(old(redisDown), old(w.g).alarms < w.g.alarms, errs == 0)
      ensures redisDown <==> errs != 0 && (old(redisDown) || old(w.g).alarms < w.g.alarms)
      ensures unreachable || w.ttl == 0 || Renewed(w.E(), old(w.g), w.g) || old(w.g).missed < w.g.missed
      ensures pendingHeartbeats == old(pendingHeartbeats) && pendingResets == old(pendingResets)
      ensures forall a :: Get(w.cnt.taken, a) == Get(old(w.cnt.taken), a) - Get(unwritten, a)
      ensures unwritten == map[] ==> w.cnt.taken == old(w.cnt.taken)
      ensures w.g.failures == old(w.g).failures && !unreachable ==> Renewed(w.E(), old(w.g), w.g)
    {
      hide Along, Steady, Closed, Mirrors, World.Core, Tally, Logged, AllFine, History, InHand, Rested, Minus, Minds,
           Renewed, Onward, SameAcked;
      RestsNowhere(w.E(), w.g);
      AlongNowhere(w.E(), w.g);
      RestedAcked(w.E(), w.g, w.g);
      if |unwritten| != 0 {
        PutBackAll(unwritten);
        RestedAcked(w.E(), old(w.g), w.g);
      }
      ghost var mid := w.g;
      EndFlush(errs, unreachable);
      RestedOn(w.E(), old(w.g), mid, w.g);
      AlongOn(w.E(), old(w.g), mid, w.g, true, true);
      RestedAcked(w.E(), mid, w.g);
      OnwardKeys(w.E(), old(w.g), mid);
      if !unreachable && Renewed(w.E(), mid, w.g) {
        RenewedSince(w.E(), old(w.g), mid, w.g);
      }
    }

    /** The pass over the actions and what follows it. */
    method WriteOut(deltas: map<string, int>, time: string) returns (ghost p: Pass, ghost n: nat)
      requires Steady() && initialized && hold == deltas && Drained() && !(deltas == map[] && Idle())
      modifies this, w`g, w.cnt, w.rdb
      ensures Valid() && initialized && w.LinesGrow() && Along(w.E(), old(w.g), w.g, true)
      ensures w.cnt.seen == old(w.cnt.seen)
      ensures Told()
      ensures old(w.g).answered <= w.g.answered && old(w.g).failures <= w.g.failures
      ensures w.g.outages <= old(w.g).outages + 1
      ensures Reporting(old(log), log, old(w.g).answered < w.g.answered)
      ensures w.g.failures == old(w.g).failures ==> Idle() && !redisDown && w.cnt.taken == old(w.cnt.taken)
      ensures w.g.failures == old(w.g).failures ==> AllFlushed(old(w.g), w.g, old(pendingResets), deltas)
      ensures w.g.failures == old(w.g).failures ==> Renewed(w.E(), old(w.g), w.g)
      ensures p.g0 == old(w.g) && p.m0 == old(Memory()) && p.g == w.g && PassOver(w.actions, n, p)
      ensures p.m.totals == pendingHeartbeats && p.m.resets == pendingResets
      ensures forall a :: Get(w.cnt.taken, a) == Get(old(w.cnt.taken), a) - Get(p.m.hold, a)
      ensures log == old(log) + EndNotices(old(redisDown), old(w.g).alarms < w.g.alarms, p.errs == 0) && p.errs >= 0
      ensures redisDown <==> p.errs != 0 && (old(redisDown) || old(w.g).alarms < w.g.alarms)
      ensures w.ttl == 0 || Renewed(w.E(), old(w.g), w.g) || old(w.g).missed < w.g.missed || Stopped(w.actions, n, p)
      ensures old(w.g).alarms <= w.g.alarms && (Stopped(w.actions, n, p) ==> old(w.g).outages < w.g.outages)
    {
      hide Reached, Stopped, Along, Closed, Worked, Mirrors, World.Core, ActionOk, Tally, Logged, AllFine, History,
           InHand, Flushed, Get, AllPositive, HasWork, Distinct, Elements, Lookup, Drained, Reporting, Progress,
           Rested, Minus, StandsStill, Minds, AllFlushed, Onward, Renewed, SameAcked, EndNotices;
      SomeWork();
      ghost var m0 := Memory();
      var unwritten, errs, unreachable;
      unwritten, errs, unreachable, n := FlushActions(deltas, time);
      ghost var g1, log1, down1 := w.g, log, redisDown;
      if errs == 0 {
        AlongIsOnward(w.E(), old(w.g), w.g, true);
        PassDone(Pass(old(w.g), m0, w.g, Memory(), unwritten, errs));
      }
      p := Pass(old(w.g), m0, w.g, Memory(), unwritten, errs);
      FinishPass(unwritten, errs, unreachable);
      ghost var q := p.(g := w.g, m := Mind(pendingHeartbeats, pendingResets, unwritten));
      PassRests(w.E(), w.actions, n, p, q);
      p := q;
      FullNotices(old(log), old(redisDown), old(w.g).alarms < g1.alarms, g1.alarms < w.g.alarms, errs == 0);
      RestedAcked(w.E(), g1, w.g);
      AlongOn(w.E(), old(w.g), g1, w.g, true, true);
      EndReporting(log1, down1, g1.alarms < w.g.alarms, errs == 0);
      ReportingOn(old(log), log1, log, false, errs == 0);
      if errs == 0 {
        StandsNowhere(old(w.g));
        RestedStands(w.E(), g1, w.g);
        FlushedWithin(old(w.g), old(w.g), g1, w.g, m0.resets, deltas, deltas);
      } else {
        ReportsLess(old(log), log, old(w.g).answered < w.g.answered);
      }
      if w.ttl > 0 && !unreachable {
        RefreshedOrMissed(w.E(), old(w.g), g1, w.g);
      }
      if w.g.failures == old(w.g).failures {
        RenewedSince(w.E(), old(w.g), g1, w.g);
      }
    }

    /** The Drain: everything counted so far is now in the hands of the flush. */
    method TakeInHand() returns (deltas: map<string, int>)
      requires Valid() && initialized
      modifies `hold, w`g, w.cnt, w.rdb
      ensures Steady() && Drained() && hold == deltas && w.LinesGrow() && Along(w.E(), old(w.g), w.g, true)
      ensures StandsStill(old(w.g), w.g) && SameCounts(old(w.g), w.g) && w.g.calls == old(w.g).calls
      ensures pendingHeartbeats == old(pendingHeartbeats) && pendingResets == old(pendingResets)
      ensures AllPositive(deltas, w.actions) && w.g.book.Keys == Elements(w.actions)
      ensures old(w.cnt.processed) <= w.cnt.seen && w.cnt.taken == Plus(old(w.cnt.taken), deltas)
    {
      hide Along, Closed, Mirrors, World.Core, Tally, Logged, AllFine, History, InHand, Rested, Plus, StandsStill,
           Minds, Drift, AllPositive, SameAcked, Worked;
      deltas := w.TakeAll();
      hold := deltas;
      TakesSteady();
      DriftRests(w.E(), old(w.g), w.g);
      RestedStands(w.E(), old(w.g), w.g);
      RestedAcked(w.E(), old(w.g), w.g);
      DriftIsWork(w.E(), old(w.g), w.g, "");
      DriftAlong(w.E(), old(w.g), w.g);
      w.BufferIsValid();
    }

    /** With nothing to write the keys are still refreshed, which also tells whether an outage is over. */
    method FlushIdle()
      requires Valid() && initialized && Idle()
      modifies `redisDown, `log, w`g, w.cnt, w.rdb
      ensures Valid() && w.LinesOnly() && Along(w.E(), old(w.g), w.g, true) && StandsStill(old(w.g), w.g) && Told()
      ensures old(w.g).answered <= w.g.answered && old(w.g).failures <= w.g.failures
      ensures w.g.outages <= old(w.g).outages + 1
      ensures w.g.failures == old(w.g).failures ==> Renewed(w.E(), old(w.g), w.g)
      ensures Reporting(old(log), log, old(w.g).answered < w.g.answered)
      ensures w.g.failures == old(w.g).failures && redisDown ==> old(redisDown) && w.ttl == 0
      ensures log == old(log)
                     + EndNotices(old(redisDown), old(w.g).alarms < w.g.alarms, old(w.g).answered < w.g.answered)
      ensures redisDown <==> old(w.g).answered == w.g.answered && (old(redisDown) || old(w.g).alarms < w.g.alarms)
      ensures w.ttl == 0 || Renewed(w.E(), old(w.g), w.g) || old(w.g).missed < w.g.missed
      ensures w.g.calls == old(w.g).calls && pendingHeartbeats == old(pendingHeartbeats)
    {
      hide Along, Closed, Mirrors, World.Core, Tally, Logged, AllFine, History, InHand, Reporting, Rested,
           StandsStill, Minds, SameAcked;
      var reached := RefreshTTL();
      RestedStands(w.E(), old(w.g), w.g);
      RestedAcked(w.E(), old(w.g), w.g);
      if reached {
        ghost var before := log;
        NoteRedisOK();
        ReportingOn(old(log), before, log, false, true);
      } else {
        ReportsLess(old(log), log, old(w.g).answered < w.g.answered);
      }
    }

    twostate lemma DrainedStays()
      requires old(Drained()) && w.g.book.Keys == old(w.g).book.Keys
      requires w.cnt.taken == old(w.cnt.taken) && w.cnt.seen == old(w.cnt.seen)
      ensures Drained()
    {
      hide Tally, Get;
    }

    /** A flush without a failed call converges, after draining `deltas` and reaching the books `g1`. */
    twostate lemma DrainConverges(new g1: Books, new deltas: map<string, int>)
      requires initialized && Idle() && Drained() && old(w.cnt.processed) <= w.cnt.seen
      requires redisDown ==> old(redisDown) && w.ttl == 0 && old(Idle()) && deltas == map[]
      requires StandsStill(old(w.g), g1) && AllFlushed(g1, w.g, old(pendingResets), deltas)
      requires w.cnt.taken == Plus(old(w.cnt.taken), deltas)
      ensures Converged()
    {
      hide Plus, Minus, Get, StandsStill, AllFlushed, Drained;
      DrainedFlushed(old(w.g), g1, w.g, old(pendingResets), old(w.cnt.taken), w.cnt.taken, deltas);
      NothingTaken(old(w.cnt.taken));
    }

    /** The pass of the flush between the two states: what the latest Drain took out of the buffer was in
        hand at its beginning, and what was put back since is what it left. */
    twostate function Sweep(fine: bool): Pass
      reads this, w, w.cnt
    {
      var drained := Beyond(w.cnt.rule, w.cnt.actions, w.cnt.seen, old(w.cnt.taken));
      var left := Beyond(w.cnt.rule, w.cnt.actions, w.cnt.seen, w.cnt.taken);
      Pass(old(w.g), Mind(old(pendingHeartbeats), old(pendingResets), drained),
           w.g, Mind(pendingHeartbeats, pendingResets, left), map[], if fine then 0 else 1)
    }

    twostate predicate AnyWork()
      reads this, w, w.cnt
    {
      WorkIn(w.actions, Sweep(true).m0)
    }

    /** The outcome of a flush, whatever failed: the first `n` actions were tried in order, each with an
        outcome of its own, and the others were not because the last of the `n` found Redis out of reach;
        the keys were refreshed unless Redis was out of reach or the refresh failed; and an outage is over
        exactly if every write succeeded, or if with nothing to write the refresh was answered. */
    twostate predicate Passed(n: nat, fine: bool)
      reads this, w, w.cnt
    {
      && PassOver(w.actions, n, Sweep(fine))
      && (Stopped(w.actions, n, Sweep(fine)) ==> old(w.g).outages < w.g.outages)
      && (w.ttl == 0 || Renewed(w.E(), old(w.g), w.g) || old(w.g).missed < w.g.missed
          || Stopped(w.actions, n, Sweep(fine)))
      && (old(initialized) || AnyWork() ==> (redisDown <==> !Over(fine) && Troubled()))
      && (old(initialized) ==>
            log == old(log) + EndNotices(old(redisDown), old(w.g).alarms < w.g.alarms, Over(fine)))
    }

    twostate predicate Over(fine: bool)
      reads this, w, w.cnt
    {
      if AnyWork() then fine else old(w.g).answered < w.g.answered
    }

    /** There was trouble with Redis since the bootstrap. */
    twostate predicate Troubled()
      reads this, w
    {
      (old(initialized) && old(redisDown)) || old(w.g).alarms < w.g.alarms
    }

    twostate predicate Accomplished()
      reads this, w, w.cnt
    {
      exists n: nat, fine: bool :: Passed(n, fine)
    }

    twostate lemma AccomplishedFreshens()
      requires Accomplished()
      ensures Freshened(w.E(), old(w.g), w.g)
    {
      hide PassOver, Stopped, Renewed, Sweep;
      var n: nat, fine: bool :| Passed(n, fine);
    }

    /** As long as Redis is in reach every action has an outcome of its own, whatever happens to the
        others: with work to do it was called about, and what that call did not do is what is left. */
    twostate lemma EachItsOwn(a: string)
      requires Accomplished() && w.g.outages == old(w.g).outages && a in w.actions && w.cnt.actions == w.actions
      ensures CameTo(a, old(w.g), w.g, a in old(pendingResets), Lookup(old(pendingHeartbeats), a),
                     w.cnt.Marked(a) - Get(old(w.cnt.taken), a),
                     a in pendingResets, Lookup(pendingHeartbeats, a), w.cnt.Marked(a) - Get(w.cnt.taken, a),
                     LastError(old(w.g), w.g, a))
    {
      hide CameTo, Tally;
      var n: nat, fine: bool :| Passed(n, fine);
      var j :| 0 <= j < |w.actions| && w.actions[j] == a;
      assert Attended(w.actions[j], Sweep(fine));
    }

    /** The pass over the actions, seen from before the Drain that put `deltas` in hand. */
    twostate lemma WorkSwept(new g1: Books, new deltas: map<string, int>, new p: Pass, new n: nat)
      requires PassOver(w.actions, n, p) && StandsStill(old(w.g), g1) && g1.calls == old(w.g).calls
      requires p.g0 == g1 && p.m0 == Mind(old(pendingHeartbeats), old(pendingResets), deltas)
      requires p.g == w.g && p.m.totals == pendingHeartbeats && p.m.resets == pendingResets && p.errs >= 0
      requires w.cnt.actions == w.actions
      requires forall a :: a in w.actions ==> w.cnt.Marked(a) == Get(old(w.cnt.taken), a) + Get(deltas, a)
      requires forall a :: a in w.actions ==> Get(w.cnt.taken, a) == w.cnt.Marked(a) - Get(p.m.hold, a)
      ensures PassOver(w.actions, n, Sweep(p.errs == 0))
      ensures Stopped(w.actions, n, Sweep(p.errs == 0)) == Stopped(w.actions, n, p)
      ensures AnyWork() == WorkIn(w.actions, p.m0)
    {
      hide PassOver, Stopped, StandsStill, Tally;
      PassSeen(w.actions, n, p, Sweep(p.errs == 0));
      WorkSeen(w.actions, p.m0, Sweep(true).m0);
    }

    /** The Drain took out everything counted so far. */
    lemma DrainMarks(taken: map<string, int>, deltas: map<string, int>)
      requires Drained() && w.cnt.taken == Plus(taken, deltas) && w.g.book.Keys == Elements(w.actions)
      ensures forall a :: a in w.actions ==> w.cnt.Marked(a) == Get(taken, a) + Get(deltas, a) == Get(w.cnt.taken, a)
    {
      hide Tally, Plus;
      forall a | a in w.actions
        ensures w.cnt.Marked(a) == Get(taken, a) + Get(deltas, a) == Get(w.cnt.taken, a)
      {
        assert a in Elements(w.actions);
      }
    }

    twostate lemma DrainPassed(new g1: Books, new deltas: map<string, int>, new p: Pass, new n: nat)
      requires PassOver(w.actions, n, p) && StandsStill(old(w.g), g1) && g1.calls == old(w.g).calls
      requires p.g0 == g1 && p.m0 == Mind(old(pendingHeartbeats), old(pendingResets), deltas)
      requires p.g == w.g && p.m.totals == pendingHeartbeats && p.m.resets == pendingResets && p.errs >= 0
      requires w.cnt.actions == w.actions
      requires forall a :: a in w.actions ==> w.cnt.Marked(a) == Get(old(w.cnt.taken), a) + Get(deltas, a)
      requires forall a :: a in w.actions ==> Get(w.cnt.taken, a) == w.cnt.Marked(a) - Get(p.m.hold, a)
      requires old(initialized) && Onward(w.E(), old(w.g), g1) && SameCounts(old(w.g), g1)
      requires w.ttl == 0 || Renewed(w.E(), g1, w.g) || g1.missed < w.g.missed || Stopped(w.actions, n, p)
      requires var over := if WorkIn(w.actions, p.m0) then p.errs == 0 else g1.answered < w.g.answered;
               && (redisDown <==> !over && (old(redisDown) || g1.alarms < w.g.alarms))
               && log == old(log) + EndNotices(old(redisDown), g1.alarms < w.g.alarms, over)
      requires Stopped(w.actions, n, p) ==> g1.outages < w.g.outages
      ensures Passed(n, p.errs == 0)
    {
      hide PassOver, Stopped, StandsStill, Tally, Onward, Renewed, EndNotices, HasWork;
      WorkSwept(g1, deltas, p, n);
      if w.ttl > 0 && !Stopped(w.actions, n, p) {
        RefreshedOrMissed(w.E(), old(w.g), g1, w.g);
      }
    }

    lemma LogParity()
      requires Valid()
      ensures redisDown <==> |log| % 2 == 1
    {
      hide Mirrors, Closed, AllFine, History, InHand, Tally;
    }

    lemma RemembersConfigured()
      requires Valid()
      ensures pendingResets <= Elements(w.actions) && pendingHeartbeats.Keys <= Elements(w.actions)
      ensures w.g.book.Keys == Elements(w.actions) && w.cnt.actions == w.actions != []
    {
      hide Mirrors, Closed, AllFine, History, InHand, Logged, Tally;
    }

    /** What a flush does with what it has drained. */
    method FlushDrained(deltas: map<string, int>, time: string) returns (ghost p: Pass, ghost n: nat)
      requires Steady() && initialized && hold == deltas && Drained()
      modifies this, w`g, w.cnt, w.rdb
      ensures Valid() && initialized && w.LinesGrow() && Along(w.E(), old(w.g), w.g, true)
      ensures w.cnt.seen == old(w.cnt.seen) && Told()
      ensures old(w.g).answered <= w.g.answered && old(w.g).failures <= w.g.failures
      ensures w.g.outages <= old(w.g).outages + 1
      ensures Reporting(old(log), log, old(w.g).answered < w.g.answered)
      ensures w.g.failures == old(w.g).failures ==> Idle() && w.cnt.taken == old(w.cnt.taken)
      ensures w.g.failures == old(w.g).failures && redisDown ==>
                old(redisDown) && w.ttl == 0 && old(Idle()) && deltas == map[]
      ensures w.g.failures == old(w.g).failures ==> AllFlushed(old(w.g), w.g, old(pendingResets), deltas)
      ensures w.g.failures == old(w.g).failures ==> Renewed(w.E(), old(w.g), w.g)
      ensures p.g0 == old(w.g) && p.m0 == old(Memory()) && p.g == w.g && PassOver(w.actions, n, p) && p.errs >= 0
      ensures p.m.totals == pendingHeartbeats && p.m.resets == pendingResets
      ensures forall a :: Get(w.cnt.taken, a) == Get(old(w.cnt.taken), a) - Get(p.m.hold, a)
      ensures var over := if WorkIn(w.actions, p.m0) then p.errs == 0 else old(w.g).answered < w.g.answered;
              && (redisDown <==> !over && (old(redisDown) || old(w.g).alarms < w.g.alarms))
              && log == old(log) + EndNotices(old(redisDown), old(w.g).alarms < w.g.alarms, over)
      ensures w.ttl == 0 || Renewed(w.E(), old(w.g), w.g) || old(w.g).missed < w.g.missed || Stopped(w.actions, n, p)
      ensures Stopped(w.actions, n, p) ==> old(w.g).outages < w.g.outages
    {
      hide ToldOf, PassOver, Stopped, EndNotices, Along, Closed, Mirrors, World.Core, Tally, Logged, AllFine, History,
           InHand, Reporting, Minus, StandsStill, Minds, AllFlushed, SameAcked, Get, Drained, Onward, Renewed,
           HasWork;
      if |deltas| == 0 && |pendingHeartbeats| == 0 && |pendingResets| == 0 {
        assert hold == map[] && Idle();
        ConfiguredBooks();
        FlushIdle();
        n := |w.actions|;
        p := Pass(old(w.g), old(Memory()), w.g, Mind(pendingHeartbeats, pendingResets, map[]), map[], 0);
        IdleOver(w.actions, p);
      } else {
        SomeWork();
        p, n := WriteOut(deltas, time);
      }
    }

    lemma ConfiguredBooks()
      requires Steady()
      ensures forall a :: a in w.actions ==> a in w.g.book
    {
      hide Mirrors, Closed, AllFine, History, InHand, Logged, Tally, Sound;
    }

    /** The flush of a daemon whose keys are bootstrapped. */
    method FlushReady(time: string) returns (ghost n: nat, ghost fine: bool)
      requires Valid() && initialized
      modifies this, w`g, w.cnt, w.rdb
      ensures Valid() && initialized && w.LinesGrow() && Along(w.E(), old(w.g), w.g, true) && Told()
      ensures old(w.g).answered <= w.g.answered && old(w.g).failures <= w.g.failures
      ensures w.g.outages <= old(w.g).outages + 1
      ensures Reporting(old(log), log, old(w.g).answered < w.g.answered)
      ensures Passed(n, fine)
      ensures w.g.failures == old(w.g).failures ==> Converged() && Renewed(w.E(), old(w.g), w.g)
    {
      hide Sweep, Beyond, WorkIn, ToldOf, Passed, PassOver, Stopped, EndNotices, Along, Steady, Closed, Mirrors,
           World.Core, Tally, Logged, AllFine, History, InHand, Reporting, Minus, Plus, StandsStill, Minds,
           AllFlushed, SameAcked, Get, Drained, Onward, Renewed, Converged;
      RemembersConfigured();
      var deltas := TakeInHand();
      label Taken:
      DrainMarks(old(w.cnt.taken), deltas);
      ghost var g1 := w.g;
      ghost var p: Pass;
      p, n := FlushDrained(deltas, time);
      fine := p.errs == 0;
      AlongOn(w.E(), old(w.g), g1, w.g, true, true);
      DrainPassed(g1, deltas, p, n);
      if w.g.failures == old(w.g).failures {
        DrainedStays@Taken();
        DrainConverges(g1, deltas);
        RenewedSince(w.E(), old(w.g), g1, w.g);
      }
    }

    /** A flush that converged converged as seen from before, if the counters stood still till then. */
    twostate lemma ConvergedSince(new mid: Books)
      requires StandsStill(old(w.g), mid)
      requires AllFlushed(mid, w.g, old(pendingResets), Minus(w.cnt.taken, old(w.cnt.taken)))
      requires initialized && pendingResets == {} && pendingHeartbeats == map[] && Drained()
      requires old(w.cnt.processed) <= w.cnt.seen
      requires redisDown ==> old(redisDown) && w.ttl == 0 && old(Idle()) && w.cnt.SameTaken()
      ensures Converged()
    {
      hide Drained, StandsStill, AllFlushed, Minus;
      StandsNowhere(w.g);
      FlushedWithin(old(w.g), mid, w.g, w.g, old(pendingResets), Minus(w.cnt.taken, old(w.cnt.taken)),
                    Minus(w.cnt.taken, old(w.cnt.taken)));
    }

    /** A flush that passed over the actions after a bootstrap that ended with the books `g1`. */
    twostate lemma PassedSince(new g1: Books, new n: nat, new fine: bool, new down1: bool)
      requires var s := Sweep(fine).(g0 := g1);
               && PassOver(w.actions, n, s)
               && (Stopped(w.actions, n, s) ==> old(w.g).outages < w.g.outages)
               && (w.ttl == 0 || Renewed(w.E(), g1, w.g) || g1.missed < w.g.missed || Stopped(w.actions, n, s))
      requires StandsStill(old(w.g), g1) && g1.calls == old(w.g).calls
      requires Onward(w.E(), old(w.g), g1) && old(w.g).alarms <= g1.alarms <= w.g.alarms
      requires var over := if AnyWork() then fine else g1.answered < w.g.answered;
               && (redisDown <==> !over && (down1 || g1.alarms < w.g.alarms))
               && (old(initialized) ==> log == old(log) + EndNotices(old(redisDown), g1.alarms < w.g.alarms, over))
      requires if old(initialized) then g1 == old(w.g) && down1 == old(redisDown)
               else down1 <==> old(w.g).alarms < g1.alarms
      ensures Passed(n, fine)
    {
      hide PassOver, Stopped, StandsStill, Tally, Onward, Renewed, AnyWork, EndNotices, Beyond;
      var s := Sweep(fine).(g0 := g1);
      PassSeen(w.actions, n, s, Sweep(fine));
      if w.ttl > 0 && !Stopped(w.actions, n, s) {
        RefreshedOrMissed(w.E(), old(w.g), g1, w.g);
      }
    }

    /** A flush from any reachable state.  While the keys are not bootstrapped `taken` does not change;
        afterwards `hold` is empty at the end, so all that was not acknowledged is buffered. */
    method Flush(time: string)
      requires Valid()
      modifies this, w`g, w.cnt, w.rdb
      ensures Valid() && w.LinesGrow() && Along(w.E(), old(w.g), w.g, old(initialized))
      ensures (old(initialized) ==> initialized) && Told()
      ensures !initialized ==> w.cnt.taken == old(w.cnt.taken) && w.cnt.seen == old(w.cnt.seen)
      ensures w.g.failures == old(w.g).failures && !old(initialized) ==> w.g.touched
      ensures old(w.g).answered <= w.g.answered && old(w.g).failures <= w.g.failures
      ensures w.g.outages <= old(w.g).outages + (if old(initialized) then 1 else 2)
      ensures w.g.failures == old(w.g).failures ==> Renewed(w.E(), old(w.g), w.g)
      ensures Reporting(old(log), log, old(w.g).answered < w.g.answered)
      ensures w.g.failures == old(w.g).failures ==> Converged()
      ensures !initialized ==> w.g.answered == old(w.g).answered && w.g.failures == old(w.g).failures + 1
      ensures initialized ==> Accomplished() && Freshened(w.E(), old(w.g), w.g)
    {
      hide WorkIn, Beyond, Onward, Renewed, PassOver, Stopped, EndNotices, Along, Closed, Mirrors, World.Core, Tally,
           Logged, AllFine, History, InHand, Reporting, Minus, StandsStill, Minds, AllFlushed, Get, Drained, Steady;
      var ready := EnsureInit(time);
      if !ready {
        return;
      }
      ghost var g1, log1 := w.g, log;
      label Ready:
      ghost var down1 := redisDown;
      ghost var n, fine;
      n, fine := FlushReady(time);
      AlongOn(w.E(), old(w.g), g1, w.g, old(initialized), true);
      AlongIsOnward(w.E(), g1, w.g, true);
      assert Passed@Ready(n, fine) && Sweep@Ready(fine) == Sweep(fine).(g0 := g1) && AnyWork@Ready() == AnyWork();
      PassedSince(g1, n, fine, down1);
      AccomplishedFreshens();
      ReportingOn(old(log), log1, log, old(w.g).answered < g1.answered, g1.answered < w.g.answered);
      ReportsMore(old(log), log, old(w.g).answered < g1.answered || g1.answered < w.g.answered,
                  old(w.g).answered < w.g.answered);
      if w.g.failures == old(w.g).failures {
        ConvergedSince(g1);
        RenewedSince(w.E(), old(w.g), g1, w.g);
      }
    }

    // ---------- a whole reset ----------

    /** What a reset without a failed call comes to: every counter is at zero, what it held and what
        was drained on the way has been erased, and the buffer holds only what arrived later. */
    twostate predicate Restarted()
      reads this, w, w.cnt
    {
      && initialized && Idle() && !redisDown && Drained()
      && old(w.cnt.processed) <= w.cnt.seen
      && AllErased(old(w.g), w.g, Minus(w.cnt.taken, old(w.cnt.taken)))
    }

    /** Resets one action and notes its error. */
    method TryReset(action: string, time: string) returns (r: Result<()>)
      requires Valid() && action in w.actions
      modifies this, w`g, w.cnt, w.rdb
      ensures Valid() && w.LinesOnly() && initialized == old(initialized) && hold == old(hold)
      ensures Worked(w.E(), old(w.g), w.g, action) && Tried(old(w.g), w.g, r.Failed())
      ensures action in old(w.g).book && action in w.g.book && (NoneBare(old(w.g)) ==> NoneBare(w.g))
      ensures w.g.touched == old(w.g).touched && w.g.freshUntil == old(w.g).freshUntil
      ensures r.Ok? ==>
                pendingResets == old(pendingResets) - {action} && pendingHeartbeats == old(pendingHeartbeats) - {action}
      ensures r.Err? ==> pendingResets == old(pendingResets) + {action} && pendingHeartbeats == old(pendingHeartbeats)
      ensures r.Ok? ==> ZeroedFrom(old(w.g).book[action], w.g.book[action])
      ensures ZeroingEnds(old(w.g), w.g, action, r.Failed())
      ensures Noticed()
      ensures Reporting(old(log), log, false) && Told()
    {
      hide ZeroingEnds, NoneBare, Onward, Closed, Mirrors, World.Core, Tally, Logged, AllFine, History, InHand,
           Reporting, Minds, Worked, ZeroedFrom;
      LogsNothing(log);
      r := ResetOne(action, time);
      StaysAlone(w.E(), old(w.g), w.g, action);
      if r.Err? {
        NoteRedisError(r.error);
      }
    }

    /** One step of the reset: the next action is reset, or only remembered. */
    method ResetNext(i: nat, time: string, ghost g0: Books, ghost m0: Mind, errs0: int, unreachable0: bool,
                     ghost n0: nat)
      returns (errs: int, unreachable: bool, ghost n: nat)
      requires Valid() && i < |w.actions| && errs0 >= 0 && (unreachable0 ==> errs0 > 0)
      requires errs0 == 0 ==> Sweeping(w.actions, i, g0, w.g, pendingResets, pendingHeartbeats)
      requires ResetSoFar(w.actions, i, n0, Pass(g0, m0, w.g, Memory(), map[], errs0)) && (!unreachable0 ==> n0 == i)
      requires AlarmsSeen(w.actions, n0, Pass(g0, m0, w.g, Memory(), map[], errs0))
      requires unreachable0 <==> Stopped(w.actions, n0, Pass(g0, m0, w.g, Memory(), map[], errs0))
      requires Onward(w.E(), g0, w.g)
      modifies this, w`g, w.cnt, w.rdb
      ensures Valid() && initialized == old(initialized) && w.LinesOnly() && Along(w.E(), old(w.g), w.g, true) && Told()
      ensures errs >= errs0 && (unreachable0 ==> unreachable) && (unreachable ==> errs > 0)
      ensures old(w.g).answered <= w.g.answered && old(w.g).failures <= w.g.failures
      ensures errs == errs0 ==> old(w.g).answered < w.g.answered && w.g.failures == old(w.g).failures
      ensures errs == errs0 ==> w.g.alarms == old(w.g).alarms
      ensures errs > errs0 && !unreachable0 ==> w.g.failures > old(w.g).failures
      ensures w.g.outages - old(w.g).outages == (if unreachable && !unreachable0 then 1 else 0)
      ensures Reporting(old(log), log, false)
      ensures Noticed()
      ensures w.g.touched == old(w.g).touched && w.g.freshUntil == old(w.g).freshUntil
      ensures NoneBare(old(w.g)) ==> NoneBare(w.g)
      ensures errs == 0 ==> Sweeping(w.actions, i + 1, g0, w.g, pendingResets, pendingHeartbeats)
      ensures ResetSoFar(w.actions, i + 1, n, Pass(g0, m0, w.g, Memory(), map[], errs)) && (!unreachable ==> n == i + 1)
      ensures AlarmsSeen(w.actions, n, Pass(g0, m0, w.g, Memory(), map[], errs))
      ensures unreachable <==> Stopped(w.actions, n, Pass(g0, m0, w.g, Memory(), map[], errs))
    {
      hide AlarmsSeen, EndNotices, ResetSoFar, Zeroed, Deferred, Stops, Fails, Alarms, ZeroingEnds, ElsewhereSame,
           Distinct, Along, NoneBare, Onward, Closed, Mirrors, World.Core, Tally, Logged, AllFine, History, InHand,
           Reporting, Minds, Worked, Sweeping, ZeroedFrom;
      var action := w.actions[i];
      errs, unreachable, n := errs0, unreachable0, n0;
      ghost var p := Pass(g0, m0, w.g, Memory(), map[], errs0);
      w.CoreAt(action);
      LaterAt(w.E(), g0, w.g, action);
      ZeroingGrows(w.actions, i, n0, p);
      NoticedNothing(log, redisDown, w.g.alarms);
      LogsNothing(log);
      if unreachable {
        Defer(action);
        errs := errs + 1;
        StaysAlone(w.E(), old(w.g), w.g, action);
        WorkAlong(w.E(), old(w.g), w.g, action);
        ghost var q := Pass(g0, m0, w.g, Memory(), map[], errs);
        MindElsewhere(action, p, q);
        DeferredNow(action, p, q);
        OneMoreDeferred(w.E(), w.actions, i, n, p, q);
        return;
      }
      var r := TryReset(action, time);
      WorkAlong(w.E(), old(w.g), w.g, action);
      AlongIsOnward(w.E(), old(w.g), w.g, true);
      if r.Err? {
        errs := errs + 1;
        unreachable := IsUnavailable(Some(r.error));
      } else if errs == 0 {
        OneMoreSwept(w.E(), w.actions, i, g0, old(w.g), w.g, old(pendingResets), pendingResets,
                     old(pendingHeartbeats), pendingHeartbeats);
      }
      ghost var q := Pass(g0, m0, w.g, Memory(), map[], errs);
      n := i + 1;
      MindElsewhere(action, p, q);
      WorkGrows(w.E(), old(w.g), w.g, action);
      ZeroedNow(action, p, q, old(w.g).book[action], r.Failed());
      OneMoreZeroed(w.E(), w.actions, i, p, q);
      OutOfReachIsUnavailable(r.Failed());
    }

    /** The zeroing of all counters. */
    method ResetAll(time: string) returns (errs: int, ghost n: nat)
      requires Valid()
      modifies this, w`g, w.cnt, w.rdb
      ensures Valid() && initialized == old(initialized) && w.LinesOnly() && Along(w.E(), old(w.g), w.g, true) && Told()
      ensures old(w.g).answered <= w.g.answered && old(w.g).failures <= w.g.failures
      ensures errs >= 0 && (errs == 0 <==> w.g.failures == old(w.g).failures)
      ensures old(w.g).outages <= w.g.outages <= old(w.g).outages + 1
      ensures Reporting(old(log), log, false)
      ensures Noticed()
      ensures w.g.touched == old(w.g).touched && w.g.freshUntil == old(w.g).freshUntil
      ensures NoneBare(old(w.g)) ==> NoneBare(w.g)
      ensures errs == 0 ==> old(w.g).answered < w.g.answered && w.g.alarms == old(w.g).alarms
      ensures errs == 0 ==> Sweeping(w.actions, |w.actions|, old(w.g), w.g, pendingResets, pendingHeartbeats)
      ensures ResetSoFar(w.actions, |w.actions|, n, Pass(old(w.g), old(Memory()), w.g, Memory(), map[], errs))
      ensures AlarmsSeen(w.actions, n, Pass(old(w.g), old(Memory()), w.g, Memory(), map[], errs))
    {
      hide AlarmsSeen, Daemon.Valid, LastError, ToldOf, NoticedOf, ResetSoFar, Stops, EndNotices, Along, NoneBare,
           Onward, Closed, Mirrors, World.Core, Tally, Logged, AllFine, History, InHand, Reporting, Minds, Sweeping;
      errs, n := 0, 0;
      ghost var m0 := Memory();
      NoneZeroed(w.actions, Pass(w.g, m0, w.g, m0, map[], 0));
      NoticedNothing(log, redisDown, w.g.alarms);
      var unreachable := false;
      RemembersConfigured();
      NoneSwept(w.actions, w.g, pendingResets, pendingHeartbeats);
      LogsNothing(log);
      AlongNowhere(w.E(), w.g);
      for i := 0 to |w.actions|
        invariant Valid() && initialized == old(initialized) && w.LinesOnly() && Along(w.E(), old(w.g), w.g, true)
        invariant errs >= 0 && (unreachable ==> errs > 0)
        invariant old(w.g).answered + (if errs == 0 && i > 0 then 1 else 0) <= w.g.answered
        invariant old(w.g).failures + (if errs > 0 then 1 else 0) <= w.g.failures
        invariant errs == 0 ==> w.g.failures == old(w.g).failures && w.g.alarms == old(w.g).alarms
        invariant w.g.outages == old(w.g).outages + if unreachable then 1 else 0
        invariant w.g.touched == old(w.g).touched && w.g.freshUntil == old(w.g).freshUntil
        invariant NoneBare(old(w.g)) ==> NoneBare(w.g)
        invariant Reporting(old(log), log, false)
        invariant Noticed()
        invariant ResetSoFar(w.actions, i, n, Pass(old(w.g), m0, w.g, Memory(), map[], errs))
        invariant !unreachable ==> n == i
        invariant AlarmsSeen(w.actions, n, Pass(old(w.g), m0, w.g, Memory(), map[], errs))
        invariant unreachable <==> Stopped(w.actions, n, Pass(old(w.g), m0, w.g, Memory(), map[], errs))
        invariant errs == 0 ==> Sweeping(w.actions, i, old(w.g), w.g, pendingResets, pendingHeartbeats)
      {
        ghost var before, down, was := log, redisDown, w.g;
        AlongIsOnward(w.E(), old(w.g), w.g, true);
        errs, unreachable, n := ResetNext(i, time, old(w.g), m0, errs, unreachable, n);
        NoticedOn(old(log), old(redisDown), old(w.g).alarms, before, down, was.alarms, log, redisDown, w.g.alarms);
        ReportingOn(old(log), before, log, false, false);
        AlongOn(w.E(), old(w.g), was, w.g, true, true);
      }
      NoticedTells(old(log), old(redisDown), old(w.g).alarms, log, redisDown, w.g.alarms);
    }

    /** Flushing and zeroing together, when no call failed. */
    twostate lemma SweepRestarts(new g1: Books)
      requires Valid() && initialized && !redisDown && Drained() && old(w.cnt.processed) <= w.cnt.seen
      requires Sweeping(w.actions, |w.actions|, g1, w.g, pendingResets, pendingHeartbeats)
      requires old(w.g).book.Keys == w.g.book.Keys
      requires AllFlushed(old(w.g), g1, old(pendingResets), Minus(w.cnt.taken, old(w.cnt.taken)))
      ensures Restarted()
    {
      hide Closed, Mirrors, World.Core, Tally, Logged, AllFine, History, InHand, Sweeping, Drained, Minus, Get,
           AllFlushed, AllErased;
      w.BufferIsValid();
      AllSwept(w.actions, old(w.g), g1, w.g, old(pendingResets), Minus(w.cnt.taken, old(w.cnt.taken)),
               pendingResets, pendingHeartbeats);
    }

    /** The pass of resets between the two states. */
    twostate function Zeroings(): Pass
      reads this, w
    {
      Pass(old(w.g), old(Memory()), w.g, Memory(), map[], if pendingResets == {} then 0 else 1)
    }

    /** The outcome of a reset, whatever failed: of the actions in order the first `n` were reset or the
        reset is remembered, and the others are only remembered because the last of the `n` found Redis
        out of reach.  What was logged last follows from that: an outage is over exactly if nothing is
        left to be reset. */
    twostate predicate Swept(n: nat, before: seq<Notice>)
      reads this, w
    {
      && ResetSoFar(w.actions, |w.actions|, n, Zeroings())
      && old(log) <= before
      && log == before + EndNotices(|before| % 2 == 1, Trouble(n), pendingResets == {})
      && (redisDown <==> pendingResets != {} && (|before| % 2 == 1 || Trouble(n)))
    }

    twostate predicate Trouble(n: nat)
      reads this, w
    {
      exists j :: 0 <= j < n <= |w.actions| && Alarms(w.actions[j], Zeroings())
    }

    twostate predicate EachReset()
      reads this, w
    {
      exists n: nat, before: seq<Notice> :: Swept(n, before)
    }

    twostate lemma SweptSince(new g1: Books, new m1: Mind, new n: nat, new errs: int, new before: seq<Notice>,
                              new down: bool)
      requires var p := Pass(g1, m1, w.g, Memory(), map[], errs);
               ResetSoFar(w.actions, |w.actions|, n, p) && AlarmsSeen(w.actions, n, p)
      requires Onward(w.E(), old(w.g), g1) && Onward(w.E(), g1, w.g)
      requires errs >= 0 && pendingResets <= Elements(w.actions)
      requires old(log) <= before && (down <==> |before| % 2 == 1)
      requires log == before + EndNotices(down, g1.alarms < w.g.alarms, errs == 0)
      requires redisDown <==> errs != 0 && (down || g1.alarms < w.g.alarms)
      ensures pendingResets == {} <==> errs == 0
      ensures EachReset()
    {
      hide ResetSoFar, Alarms, Onward, EndNotices;
      ResetSeen(w.E(), w.actions, n, Pass(g1, m1, w.g, Memory(), map[], errs), Zeroings());
      assert Trouble(n) <==> g1.alarms < w.g.alarms;
      assert Swept(n, before);
    }

    /** The part of a reset after its flush. */
    method Zero(time: string) returns (errs: int, ghost n: nat)
      requires Valid()
      modifies this, w`g, w.cnt, w.rdb
      ensures Valid() && initialized == old(initialized) && w.LinesOnly() && Along(w.E(), old(w.g), w.g, true) && Told()
      ensures old(w.g).answered <= w.g.answered && old(w.g).failures <= w.g.failures
      ensures errs >= 0 && (errs == 0 <==> w.g.failures == old(w.g).failures)
      ensures old(w.g).outages <= w.g.outages <= old(w.g).outages + 1
      ensures Reporting(old(log), log, old(w.g).answered < w.g.answered)
      ensures w.g.touched == old(w.g).touched && w.g.freshUntil == old(w.g).freshUntil
      ensures NoneBare(old(w.g)) ==> NoneBare(w.g)
      ensures errs == 0 ==> Sweeping(w.actions, |w.actions|, old(w.g), w.g, pendingResets, pendingHeartbeats)
      ensures ResetSoFar(w.actions, |w.actions|, n, Pass(old(w.g), old(Memory()), w.g, Memory(), map[], errs))
      ensures AlarmsSeen(w.actions, n, Pass(old(w.g), old(Memory()), w.g, Memory(), map[], errs))
      ensures log == old(log) + EndNotices(old(redisDown), old(w.g).alarms < w.g.alarms, errs == 0)
      ensures redisDown <==> errs != 0 && (old(redisDown) || old(w.g).alarms < w.g.alarms)
    {
      hide ResetSoFar, AlarmsSeen, NoticedOf, ToldOf, Along, Closed, Mirrors, World.Core, Tally, AllFine, History,
           InHand, Reporting, Sweeping, Onward, NoneBare, Minds;
      errs, n := ResetAll(time);
      ghost var log1, down1 := log, redisDown;
      ResetNotices(old(log), old(redisDown), old(w.g).alarms, log1, down1, w.g.alarms, errs);
      if errs == 0 {
        NoteRedisOK();
        ReportingOn(old(log), log1, log, false, true);
      }
      ReportsMore(old(log), log, errs == 0, old(w.g).answered < w.g.answered);
      ToldOfRecovery(log1, down1, w.g.alarms, errs == 0);
      ToldOn(old(log), old(redisDown), old(w.g).alarms, log1, down1, w.g.alarms, log, redisDown, w.g.alarms);
    }

    /** A flush followed by a pass of resets.  If no call fails, `Restarted` gives what was erased in
        terms of the state before the flush. */
    method Reset(time: string)
      requires Valid()
      modifies this, w`g, w.cnt, w.rdb
      ensures Valid() && w.LinesGrow() && Along(w.E(), old(w.g), w.g, old(initialized))
      ensures (old(initialized) ==> initialized) && Told()
      ensures old(w.g).answered <= w.g.answered && old(w.g).failures <= w.g.failures
      ensures w.g.outages <= old(w.g).outages + (if old(initialized) then 2 else 3)
      ensures w.g.failures == old(w.g).failures ==> Renewed(w.E(), old(w.g), w.g)
      ensures Reporting(old(log), log, old(w.g).answered < w.g.answered)
      ensures w.g.failures == old(w.g).failures ==> Restarted()
      ensures EachReset() && (pendingResets == {} ==> !redisDown)
      ensures initialized ==> Freshened(w.E(), old(w.g), w.g)
    {
      hide Freshened, ResetSoFar, AlarmsSeen, EachReset, EndNotices, ToldOf, Accomplished, Along, Closed, Mirrors,
           World.Core, Tally, Logged, AllFine, History, InHand, Reporting, Sweeping, Drained, Minus, Get, AllFlushed,
           AllErased, Onward, NoneBare, Renewed, Minds;
      Flush(time);
      label Flushed:
      LogParity();
      ghost var g1, log1, m1, down1 := w.g, log, Memory(), redisDown;
      var errs;
      ghost var n;
      errs, n := Zero(time);
      ReportingGrows(old(log), log1, old(w.g).answered < g1.answered);
      ReportingOn(old(log), log1, log, old(w.g).answered < g1.answered, g1.answered < w.g.answered);
      ReportsMore(old(log), log, old(w.g).answered < g1.answered || g1.answered < w.g.answered,
                  old(w.g).answered < w.g.answered);
      ToldOn(old(log), old(redisDown), old(w.g).alarms, log1, down1, g1.alarms, log, redisDown, w.g.alarms);
      AlongOn(w.E(), old(w.g), g1, w.g, old(initialized), true);
      AlongIsOnward(w.E(), g1, w.g, true);
      RemembersConfigured();
      SweptSince(g1, m1, n, errs, log1, down1);
      if initialized {
        StaysFreshened(w.E(), old(w.g), g1, w.g);
      }
      if w.g.failures == old(w.g).failures {
        DrainedStays@Flushed();
        StaysRenewed(w.E(), old(w.g), g1, w.g);
        SweepRestarts(g1);
      }
    }

    /** The daemon waits while others run. */
    method Wait()
      requires Valid()
      modifies w`g, w.cnt, w.rdb
      ensures Valid() && w.LinesOnly() && Drift(w.E(), old(w.g), w.g)
    {
      hide Closed, AllFine, History, InHand, Mirrors, World.Core, Logged, Minds, Drift, Rested;
      w.Interleave();
      DriftRests(w.E(), old(w.g), w.g);
      DriftClosed(w.E(), old(w.g), w.g);
      RestsSteady();
    }

    /** The last flush.  The tailer is stopped first, so every line it has read is counted, and none
        arrives later.  Whatever went wrong before, if no call fails from here on, everything that was
        read is in Redis. */
    method Drain(time: string)
      requires Valid()
      modifies this, w`g, w`tailing, w.cnt, w.rdb
      ensures Valid() && !w.tailing && old(w.cnt.processed) <= w.cnt.processed
      ensures Along(w.E(), old(w.g), w.g, old(initialized)) && Told()
      ensures old(log) <= log && old(w.g).failures <= w.g.failures
      ensures w.g.failures == old(w.g).failures ==> Converged() && Complete() && Renewed(w.E(), old(w.g), w.g)
    {
      hide Along, Closed, AllFine, History, InHand, Mirrors, World.Core, Logged, Minds, Drift, AllFlushed, Minus, Get,
           Drained, StandsStill, Worked, Onward, Renewed, SameAcked, Complete;
      w.StopTailing();
      DriftIsWork(w.E(), old(w.g), w.g, "");
      DriftRests(w.E(), old(w.g), w.g);
      DriftClosed(w.E(), old(w.g), w.g);
      RestsSteady();
      RestedStands(w.E(), old(w.g), w.g);
      RestedAcked(w.E(), old(w.g), w.g);
      DriftAlong(w.E(), old(w.g), w.g);
      ghost var mid, taken := w.g, w.cnt.taken;
      Flush(time);
      AlongOn(w.E(), old(w.g), mid, w.g, true, old(initialized));
      if w.g.failures == old(w.g).failures {
        RenewedSince(w.E(), old(w.g), mid, w.g);
        StandsNowhere(w.g);
        w.BufferIsValid();
        FlushedWithin(old(w.g), mid, w.g, w.g, old(pendingResets), Minus(w.cnt.taken, taken),
                      Minus(w.cnt.taken, taken));
        NothingLeft();
      }
    }

    /** Every line that was read is in Redis, and nothing is left in the buffer. */
    ghost predicate Complete()
      reads w, w.cnt
    {
      forall a :: a in w.actions ==>
        && Acked(w.g.calls, a) == Count(w.cnt.rule, w.cnt.processed, a)
        && Get(w.cnt.pending, a) == 0
    }

    lemma NothingLeft()
      requires Valid() && Drained() && w.cnt.seen == w.cnt.processed
      ensures Complete()
    {
      hide Closed, AllFine, History, InHand, Mirrors, World.Core, Logged, Minds, Drained, Tally;
      forall a | a in w.actions
        ensures Acked(w.g.calls, a) == Count(w.cnt.rule, w.cnt.processed, a) && Get(w.cnt.pending, a) == 0
      {
        OnlyLaterLines(a);
        ExactlyOnce(a);
      }
    }

    // ---------- what a counter has gone through between two moments ----------

    /** Whatever the daemon did and whatever failed in between: a counter nobody else touched has moved by
        the increments that took effect, less what resets removed. */
    twostate lemma CountersFollowCalls(a: string)
      requires old(Valid()) && Valid() && Onward(w.E(), old(w.g), w.g) && a in w.actions
      ensures a in old(w.g).book && a in w.g.book
      ensures Quiet(old(w.g).book[a], w.g.book[a]) ==>
                Val(Find(w.rdb.db, CounterKey(w.host, a))) - Val(Find(old(w.rdb.db), CounterKey(w.host, a)))
                == Held(0, w.g.calls, a) - Held(0, old(w.g).calls, a)
    {
      hide Closed, AllFine, History, Logged, Mirrors, Tally, CounterKey, HeartbeatKey, Sound, Held, Find, Late, Minds,
           InHand;
      MirrorsAt(w.host, w.g.book, w.rdb.db, a);
      MirrorsAt(w.host, old(w.g).book, old(w.rdb.db), a);
      SameStart(w.E(), w.opening.book, old(w.g).book, w.g.book, a);
      if Quiet(old(w.g).book[a], w.g.book[a]) {
        QuietMoves(w.E(), old(w.g), w.g, a);
      }
    }

    /** Where no other process writes our keys and no refresh came too late, what a flush or reset without
        a failed call comes to holds without exception. */
    twostate lemma SoleCounts(a: string)
      requires old(Valid()) && Valid() && Onward(w.E(), old(w.g), w.g) && a in w.actions
      requires w.sole && old(w.g).touched && !w.g.starved
      ensures Converged() ==>
                Val(Find(w.rdb.db, CounterKey(w.host, a)))
                == (if a in old(pendingResets) then 0 else Val(Find(old(w.rdb.db), CounterKey(w.host, a))))
                   + Get(w.cnt.taken, a) - old(Get(w.cnt.taken, a))
      ensures Restarted() ==> Val(Find(w.rdb.db, CounterKey(w.host, a))) == 0
    {
      hide Closed, AllFine, History, Logged, Mirrors, Tally, CounterKey, HeartbeatKey, Sound, Find, Late, Minds,
           InHand, Drained;
      MirrorsAt(w.host, w.g.book, w.rdb.db, a);
      MirrorsAt(w.host, old(w.g).book, old(w.rdb.db), a);
      SoleIsQuiet(w.E(), old(w.g), w.g, a);
      var drained := Minus(w.cnt.taken, old(w.cnt.taken));
      assert Get(drained, a) == Get(w.cnt.taken, a) - old(Get(w.cnt.taken, a));
    }

    // ---------- what happens while the daemon waits ----------

    /** A reset after the daemon had waited restarts the counters as seen from before the waiting. */
    twostate lemma RestartedSince(new mid: Books)
      requires StandsStill(old(w.g), mid) && AllErased(mid, w.g, Minus(w.cnt.taken, old(w.cnt.taken)))
      requires initialized && Idle() && !redisDown && Drained() && old(w.cnt.processed) <= w.cnt.seen
      ensures Restarted()
    {
      hide Drained, StandsStill, AllErased, Minus;
      ErasedWithin(old(w.g), mid, w.g, Minus(w.cnt.taken, old(w.cnt.taken)));
    }

    // ---------- what holds between two flushes ----------

    /** Every matching line is either in the buffer or acknowledged by Redis, never both and never
        neither; what Redis was given beyond that is exactly the increments of failed calls; and what is
        missing from the counter was removed by our resets, by others or by an expiry. */
    lemma ExactlyOnce(a: string)
      requires Valid() && a in w.actions
      ensures Count(w.cnt.rule, w.cnt.processed, a) == Get(w.cnt.pending, a) + Acked(w.g.calls, a)
      ensures a in w.g.book
      ensures Val(Find(w.rdb.db, CounterKey(w.host, a))) == Held(w.Initial(a), w.g.calls, a) - TakenAway(w.g.book[a])
      ensures Alone(w.g.book[a]) ==> TakenAway(w.g.book[a]) == 0 && Exact(w.Initial(a), w.g.calls, a)
      ensures 0 <= w.Initial(a) ==> 0 <= TakenAway(w.g.book[a])
    {
      hide Closed, AllFine, Logged, Mirrors, World.Core, Tally, CounterKey, HeartbeatKey, World.Initial, Held, Exact,
           TakenAway;
      w.BufferIsValid();
      w.Conservation(a);
      w.RedisConservation(a);
    }

    /** As long as nobody else touches an action, its counter holds exactly the increments that took
        effect since its last reset. */
    lemma CountsSinceReset(a: string, i: nat)
      requires Valid() && a in w.actions && i < |w.g.calls| && a in w.g.book && Alone(w.g.book[a])
      requires w.g.calls[i].Wipe? && w.g.calls[i].action == a
      requires forall k :: i < k < |w.g.calls| ==> !(w.g.calls[k].Wipe? && w.g.calls[k].action == a)
      ensures Val(Find(w.rdb.db, CounterKey(w.host, a)))
           == Acked(w.g.calls[i + 1..], a) + Dup(w.g.calls[i + 1..], a)
    {
      hide *;
      ExactlyOnce(a);
      HeldSinceWipe(w.Initial(a), w.g.calls, i, a);
    }

    /** With nobody else writing and nothing expiring, the monitoring value reports the counter, unless
        a reset is owed, or the daemon remembers the total to be reported, or a failed call may have
        moved the counter and its increments are back in the buffer. */
    lemma HeartbeatAgreement(a: string)
      requires Valid() && initialized && w.heartbeat && w.agreed && a in w.actions && a in w.g.book
      requires Alone(w.g.book[a])
      ensures var counter := Find(w.rdb.db, CounterKey(w.host, a));
              || Agree(counter, Find(w.rdb.db, HeartbeatKey(w.host, a)))
              || a in pendingResets
              || (a in pendingHeartbeats && pendingHeartbeats[a] == Val(counter))
              || (0 < Get(w.cnt.pending, a) && exists i :: 0 <= i < |w.g.calls| && UnsureSince(w.g.calls, i, a))
    {
      hide Audited, Settled, History, Logged, Mirrors, World.Core, Tally, CounterKey, HeartbeatKey, Agree;
      w.CoreAt(a);
      MirrorsAt(w.host, w.g.book, w.rdb.db, a);
      FineAt(a, pendingHeartbeats);
      w.BufferIsValid();
      RecordedAt(w.g, a);
      UnsureMeaning(w.g.calls, a);
      BufferCoversUnsure(a);
    }

    lemma BufferCoversUnsure(a: string)
      requires w.cnt.Valid() && InHand() && hold == map[] && a in w.g.book
      ensures w.g.book[a].acked < w.cnt.Marked(a) ==> 0 < Get(w.cnt.pending, a)
    {
      TallyGrows(w.cnt.rule, w.cnt.actions, w.cnt.seen, w.cnt.processed, a);
    }

    /** After a flush or reset without a failed call there is no exception left. */
    lemma HeartbeatAgreesWhenDone(a: string)
      requires Valid() && initialized && Idle() && Drained() && w.heartbeat && w.agreed && a in w.actions
      requires a in w.g.book && Alone(w.g.book[a])
      ensures Agree(Find(w.rdb.db, CounterKey(w.host, a)), Find(w.rdb.db, HeartbeatKey(w.host, a)))
    {
      hide Closed, History, Logged, Mirrors, World.Core, Tally, CounterKey, HeartbeatKey, Agree;
      w.CoreAt(a);
      MirrorsAt(w.host, w.g.book, w.rdb.db, a);
      FineAt(a, pendingHeartbeats);
    }

    /** Every monitoring value ever written reported what the counter held at that moment. */
    lemma ReportsWereTrue(i: nat)
      requires Valid() && w.agreed && i < |w.g.calls| && w.g.calls[i].Report?
      requires w.g.calls[i].action in w.g.book && Alone(w.g.book[w.g.calls[i].action])
      ensures w.g.calls[i].lines == w.g.calls[i].actual
    {
      hide Closed, AllFine, Logged, Mirrors, World.Core, Tally, NoOvertaking;
    }

    /** The daemon remembers a reset exactly when one is owed, and between a reset that failed or was
        skipped and any later increment of the same action lies one that succeeded. */
    lemma ResetsKept(a: string, i: nat, j: nat)
      requires Valid() && a in w.actions
      ensures a in pendingResets <==> Owed(w.g.calls, a)
      ensures i < j < |w.g.calls| && FailedReset(w.g.calls[i], a) && IncrementOf(w.g.calls[j], a) ==>
                exists k :: i < k < j && DoneReset(w.g.calls[k], a)
    {
      hide Logged, Mirrors, World.Core, Tally, Truthful, NoOvertaking;
      w.CoreAt(a);
      FineAt(a, pendingHeartbeats);
      OwedAt(w.g, a);
      if i < j < |w.g.calls| && FailedReset(w.g.calls[i], a) && IncrementOf(w.g.calls[j], a) {
        NoOvertakingMeaning(w.g.calls, i, j, a);
      }
    }

    /** After a reset that set the counter to zero and then failed, the counter holds nothing until the
        reset is redone, so redoing it erases no later increment. */
    lemma HalfDoneReset(a: string, i: nat)
      requires Valid() && a in w.actions && i < |w.g.calls|
      requires FailedReset(w.g.calls[i], a) && w.g.calls[i].Zeroing? && w.g.calls[i].wiped
      requires forall k :: i < k < |w.g.calls| ==> !DoneReset(w.g.calls[k], a)
      ensures a in pendingResets && Val(Find(w.rdb.db, CounterKey(w.host, a))) == 0
    {
      hide Logged, Mirrors, World.Core, Tally, Truthful, NoOvertaking, CounterKey, HeartbeatKey;
      w.CoreAt(a);
      MirrorsAt(w.host, w.g.book, w.rdb.db, a);
      FineAt(a, pendingHeartbeats);
      OwedMeaning(w.g.calls, a);
      OwedAt(w.g, a);
      HalfDoneStaysWiped(w.g.calls, i, a);
    }

    /** Lines that arrived after the latest Drain are still in the buffer, all of them and no others,
        as long as nothing had to be put back. */
    lemma OnlyLaterLines(a: string)
      requires Valid() && Drained() && a in w.actions
      ensures w.cnt.seen <= w.cnt.processed
      ensures Get(w.cnt.pending, a) == Count(w.cnt.rule, w.cnt.processed[|w.cnt.seen|..], a)
    {
      hide Closed, AllFine, History, Logged, Mirrors, Tally;
      w.BufferIsValid();
      var later := w.cnt.processed[|w.cnt.seen|..];
      assert w.cnt.processed == w.cnt.seen + later;
      TallyConcat(w.cnt.rule, w.actions, w.cnt.seen, later, a);
      TallyIsCount(w.cnt.rule, w.actions, later, a);
    }

    ghost function Memory(): Mind
      reads this
    {
      Mind(pendingHeartbeats, pendingResets, hold)
    }

    lemma NotInHand(action: string)
      requires InHand()
      ensures Get(hold, action) >= 0
      ensures Get(hold, action) == 0 ==> hold - {action} == hold
    {
    }

    /** The increments in hand were drained and not acknowledged, so they may be sent. */
    lemma Covers(action: string)
      requires InHand() && Drained() && action in w.g.book
      ensures w.g.book[action].acked + Get(hold, action) == Get(w.cnt.taken, action) == w.cnt.Marked(action)
    {
    }
  }

  lemma HandedOver(hold: map<string, int>, a: string)
    ensures Get(hold - {a}, a) == 0
  {
  }

  lemma SameStart(e: Env, o: map<string, Account>, b: map<string, Account>, c: map<string, Account>, a: string)
    requires StartsFrom(e, o, b) && StartsFrom(e, o, c) && a in b && a in c
    ensures c[a].initial == b[a].initial
  {
  }

  lemma RestedAcked(e: Env, g: Books, h: Books)
    requires Rested(e, g, h)
    ensures SameAcked(g, h) && h.calls == g.calls && Onward(e, g, h)
    ensures g.answered <= h.answered && g.failures <= h.failures && g.outages <= h.outages
  {
    forall a | a in g.book
      ensures h.book[a].acked == g.book[a].acked
    {
      assert Aside(e, g.book[a], h.book[a]);
    }
  }

  lemma BootedAcked(e: Env, g: Books, h: Books)
    requires AllBooted(e, g, h)
    ensures SameAcked(g, h) && h.calls == g.calls && Onward(e, g, h) && g.outages <= h.outages
  {
    forall a | a in g.book
      ensures h.book[a].acked == g.book[a].acked
    {
      assert Booted(e, g.book[a], h.book[a]);
    }
  }

  lemma DrainedFlushed(g: Books, m: Books, h: Books, resets: set<string>,
                       taken: map<string, int>, taken': map<string, int>, drained: map<string, int>)
    requires StandsStill(g, m) && taken' == Plus(taken, drained) && AllFlushed(m, h, resets, drained)
    ensures AllFlushed(g, h, resets, Minus(taken', taken))
  {
    hide StandsStill, AllFlushed, Plus, Minus;
    DrainedMinus(taken, drained);
    StandsNowhere(h);
    FlushedWithin(g, m, h, h, resets, drained, Minus(taken', taken));
  }

  lemma NothingTaken(taken: map<string, int>)
    ensures forall a :: Get(Plus(taken, map[]), a) == Get(taken, a)
    ensures forall a :: Get(Minus(Plus(taken, map[]), taken), a) == 0
  {
  }

  lemma DrainedMinus(taken: map<string, int>, drained: map<string, int>)
    ensures forall a :: Get(Minus(Plus(taken, drained), taken), a) == Get(drained, a)
  {
  }

  predicate IncrementOf(c: Call, a: string) {
    c.Increment? && c.action == a
  }

  lemma AloneBefore(e: Env, g: Books, h: Books, a: string)
    requires Onward(e, g, h) && a in h.book && Alone(h.book[a])
    ensures a in g.book && Alone(g.book[a]) && Quiet(g.book[a], h.book[a])
  {
  }

  lemma RestedOn(e: Env, g: Books, h: Books, i: Books)
    requires Rested(e, g, h) && Rested(e, h, i)
    ensures Rested(e, g, i)
  {
    hide Onward, Aside;
    OnwardOn(e, g, h, i);
    forall b | b in g.book
      ensures Aside(e, g.book[b], i.book[b])
    {
      AsideOn(e, g.book[b], h.book[b], i.book[b]);
    }
  }

  lemma BareKept(e: Env, g: Books, h: Books, a: string)
    requires Worked(e, g, h, a) && a in g.book && a in h.book && (h.book[a].bare ==> g.book[a].bare)
    ensures NoneBare(g) ==> NoneBare(h)
  {
    forall b | b in h.book && NoneBare(g)
      ensures !h.book[b].bare
    {
      if b != a {
        assert Aside(e, g.book[b], h.book[b]);
      }
    }
  }

  /** The increments of some lines that are not among those taken. */
  function Beyond(rule: Rule, actions: seq<string>, lines: seq<string>, taken: map<string, int>): map<string, int> {
    map a | a in Elements(actions) :: Tally(rule, actions, lines, a) - Get(taken, a)
  }

  predicate ToldOf(log: seq<Notice>, down: bool, alarms: nat, log': seq<Notice>, down': bool, alarms': nat) {
    && |log| <= |log'| && (|log'| == |log| ==> down' == down)
    && alarms <= alarms'
    && (alarms < alarms' ==> down || |log| < |log'|)
  }

  predicate NoticedOf(log: seq<Notice>, down: bool, alarms: nat, log': seq<Notice>, down': bool, alarms': nat) {
    && alarms <= alarms'
    && log' == log + EndNotices(down, alarms < alarms', false)
    && (down' <==> down || alarms < alarms')
  }

  lemma NoticedNothing(log: seq<Notice>, down: bool, alarms: nat)
    ensures NoticedOf(log, down, alarms, log, down, alarms)
  {
  }

  /** Two reports of trouble in a row are one. */
  lemma NoticedOn(log: seq<Notice>, down: bool, alarms: nat, log1: seq<Notice>, down1: bool, alarms1: nat,
                  log2: seq<Notice>, down2: bool, alarms2: nat)
    requires NoticedOf(log, down, alarms, log1, down1, alarms1) && NoticedOf(log1, down1, alarms1, log2, down2, alarms2)
    ensures NoticedOf(log, down, alarms, log2, down2, alarms2)
  {
  }

  lemma ToldOn(log: seq<Notice>, down: bool, alarms: nat, log1: seq<Notice>, down1: bool, alarms1: nat,
               log2: seq<Notice>, down2: bool, alarms2: nat)
    requires ToldOf(log, down, alarms, log1, down1, alarms1) && ToldOf(log1, down1, alarms1, log2, down2, alarms2)
    ensures ToldOf(log, down, alarms, log2, down2, alarms2)
  {
  }

  lemma ToldOfRecovery(log: seq<Notice>, down: bool, alarms: nat, over: bool)
    ensures ToldOf(log, down, alarms, if over && down then log + [IsBack] else log, down && !over, alarms)
  {
  }

  lemma NoticedTells(log: seq<Notice>, down: bool, alarms: nat, log': seq<Notice>, down': bool, alarms': nat)
    requires NoticedOf(log, down, alarms, log', down', alarms')
    ensures ToldOf(log, down, alarms, log', down', alarms')
  {
  }

  /** What a reset says in the end. */
  lemma ResetNotices(log: seq<Notice>, down: bool, alarms: nat, log': seq<Notice>, down': bool, alarms': nat, errs: int)
    requires NoticedOf(log, down, alarms, log', down', alarms') && (errs == 0 ==> alarms' == alarms)
    ensures (if errs == 0 && down' then log' + [IsBack] else log')
         == log + EndNotices(down, alarms < alarms', errs == 0)
    ensures errs != 0 && down' <==> errs != 0 && (down || alarms < alarms')
  {
  }

  predicate SameAcked(g: Books, h: Books) {
    h.book.Keys == g.book.Keys && forall a :: a in g.book ==> h.book[a].acked == g.book[a].acked
  }

  /** How a call or a group of calls that stops at its first error shows in the counts. */
  predicate Attempted(g: Books, h: Books, error: Option<Error>) {
    && h.failures == g.failures + (if error.Some? then 1 else 0)
    && h.outages == g.outages + (if IsUnavailable(error) then 1 else 0)
    && h.alarms == g.alarms + (if IsAlarm(error) then 1 else 0)
    && h.answered >= g.answered
  }

  lemma ReportEffects(e: Env, g: Books, h: Books, a: string, beat: Heartbeat, ok: bool)
    requires a in g.book && a in h.book && Worked(e, g, h, a) && Reported(e, g.book[a], h.book[a], beat, ok)
    ensures h.book[a].acked == g.book[a].acked
    ensures HandsOff(e, g.book[a], h.book[a]) && h.book.Keys == g.book.Keys
    ensures Moved(g.book[a], h.book[a], 0)
  {
  }

  lemma TotalIsActual(e: Env, x: Account, total: int, marked: int, agreed: bool)
    requires ActionOk(e, x, true, false, Some(total), marked, agreed) && e.heartbeat && !x.unsure
    ensures Alone(x) && agreed ==> Val(x.counter) == total
  {
  }

  /** An action with nothing left to send has no increment whose fate is unknown. */
  lemma NotUnsure(e: Env, x: Account, ready: bool, total: Option<int>, marked: int, agreed: bool)
    requires ActionOk(e, x, ready, false, total, marked, agreed) && x.acked == marked
    ensures !x.unsure
  {
  }

  lemma ResetThenFlush(e: Env, g: Books, h: Books, i: Books, a: string, delta: int, fine: bool)
    requires a in g.book && a in h.book && a in i.book && Worked(e, h, i, a)
    requires ZeroedFrom(g.book[a], h.book[a])
    requires fine ==> Moved(h.book[a], i.book[a], delta)
    ensures fine ==> Flushed(g.book[a], i.book[a], true, delta)
  {
  }

  lemma JustFlush(e: Env, g: Books, h: Books, a: string, delta: int)
    requires a in g.book && a in h.book
    ensures Moved(g.book[a], h.book[a], delta) <==> Flushed(g.book[a], h.book[a], false, delta)
  {
  }

  lemma NothingMoved(e: Env, g: Books, a: string)
    requires a in g.book
    ensures Worked(e, g, g, a) && Moved(g.book[a], g.book[a], 0)
  {
  }

  lemma MovesOn(e: Env, g: Books, h: Books, i: Books, a: string, d: int, d': int)
    requires a in g.book && a in h.book && a in i.book && Worked(e, h, i, a)
    requires Moved(g.book[a], h.book[a], d)
    requires Moved(h.book[a], i.book[a], d')
    ensures Moved(g.book[a], i.book[a], d + d')
  {
  }

  lemma IncrementEffects(e: Env, g: Books, h: Books, c: Call)
    requires c.Increment? && c.action in g.book && c.action in h.book && Worked(e, g, h, c.action)
    requires Incremented(e, g.book[c.action], h.book[c.action], c)
    ensures h.book[c.action].acked == g.book[c.action].acked + (if c.error.None? then c.delta else 0)
    ensures HandsOff(e, g.book[c.action], h.book[c.action]) && h.book.Keys == g.book.Keys
    ensures c.applied ==> Moved(g.book[c.action], h.book[c.action], c.delta)
  {
  }

  lemma NotOwed(e: Env, x: Account, ready: bool, total: Option<int>, marked: int, agreed: bool)
    requires ActionOk(e, x, ready, false, total, marked, agreed)
    ensures !x.owed
  {
  }

  /** What the daemon remembers about other actions is unchanged. */
  ghost predicate OtherMinds(a: string, resets: set<string>, resets': set<string>, totals: map<string, int>,
                             totals': map<string, int>) {
    && resets - {a} == resets' - {a}
    && forall b :: b != a ==> Lookup(totals, b) == Lookup(totals', b)
  }

  lemma DeferralEffects(g: Books, a: string)
    requires a in g.book
    ensures var h := Filed(g, Deferral(a), None);
            && h.calls == g.calls + [Deferral(a)] && h.book.Keys == g.book.Keys
            && h.book[a] == g.book[a].(owed := true) && SameCounts(g, h)
    ensures SameLedger(Effect(g.book[a], Deferral(a)), g.book[a])
  {
  }

  lemma ResetEffects(e: Env, g: Books, h: Books, c: Call, removed: int)
    requires c.Zeroing? && c.action in g.book && c.action in h.book && Worked(e, g, h, c.action)
    requires WasReset(e, g.book[c.action], h.book[c.action], c, removed)
    ensures Quiet(g.book[c.action], h.book[c.action]) ==> removed == Val(g.book[c.action].counter)
    ensures h.book[c.action].acked == g.book[c.action].acked
    ensures HandsOff(e, g.book[c.action], h.book[c.action]) && h.book.Keys == g.book.Keys
    ensures h.book[c.action].bare ==> g.book[c.action].bare
    ensures c.error.None? ==> ZeroedFrom(g.book[c.action], h.book[c.action])
  {
  }
}
