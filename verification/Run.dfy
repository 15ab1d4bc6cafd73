/** A whole run of the daemon: the loop over its ticker and its reset channel, and the shutdown. */
module Running {
  import opened Prelude
  import opened Matching
  import opened Counters
  import opened Keyspace
  import opened Redis
  import opened Ledger
  import opened Commands
  import opened Configs
  import opened Worlds
  import opened Protocol
  import opened Daemons

  /** What the loop and the scheduler do, in order: the schedule fires, the loop takes one of the things
      that are ready, the ticker being due or not, and then a reset or a flush begins. */
  datatype Event = Fired | Looked(due: bool) | Started | Ticked

  /** A firing no reset has begun after. */
  ghost predicate Waiting(events: seq<Event>) {
    exists i :: 0 <= i < |events| && events[i] == Fired && forall j :: i < j < |events| ==> events[j] != Started
  }

  /** The channel holds a token exactly while a firing waits, and every reset answers a firing that
      waited for it. */
  ghost predicate Coalesced(events: seq<Event>, queued: bool) {
    && queued == Waiting(events)
    && forall j :: 0 <= j < |events| && events[j] == Started ==> Waiting(events[..j])
  }

  /** Only firings were added. */
  ghost predicate JustFired(before: seq<Event>, after: seq<Event>) {
    before <= after && forall i :: |before| <= i < |after| ==> after[i] == Fired
  }

  /** The loop took one thing that was ready, and apart from that only firings were added. */
  ghost predicate Turned(before: seq<Event>, after: seq<Event>, due: bool, e: Event) {
    before <= after && exists i :: |before| <= i && TakenAt(after, i, due, e, |before|)
  }

  ghost predicate TakenAt(events: seq<Event>, i: nat, due: bool, e: Event, since: nat) {
    && i + 1 < |events| && events[i] == Looked(due) && events[i + 1] == e
    && forall j :: since <= j < |events| && j != i && j != i + 1 ==> events[j] == Fired
  }

  /** Whenever the loop looked it took something: a reset, which it does whenever the ticker is not due, or
      a flush; and it takes nothing without looking. */
  ghost predicate Responsive(events: seq<Event>) {
    && (forall k :: 0 <= k < |events| && events[k].Looked? ==>
          k + 1 < |events| && (events[k + 1] == Started || (events[k].due && events[k + 1] == Ticked)))
    && (forall k :: 0 <= k < |events| && (events[k] == Started || events[k] == Ticked) ==>
          k > 0 && events[k - 1].Looked?)
  }

  lemma FiresAround(a: seq<Event>, b: seq<Event>, c: seq<Event>, due: bool, e: Event)
    requires JustFired(a, b) && JustFired(b + [Looked(due)] + [e], c)
    ensures Turned(a, c, due, e)
  {
    var m := b + [Looked(due)] + [e];
    assert forall j :: 0 <= j < |m| ==> c[j] == m[j];
    assert TakenAt(c, |b|, due, e, |a|);
  }

  lemma OnlyOneTaken(before: seq<Event>, after: seq<Event>, due: bool)
    ensures !(Turned(before, after, due, Ticked) && Turned(before, after, due, Started))
  {
  }

  lemma FiringsRespond(before: seq<Event>, after: seq<Event>)
    requires Responsive(before) && JustFired(before, after)
    ensures Responsive(after)
  {
    assert forall k :: 0 <= k < |before| ==> after[k] == before[k];
  }

  lemma TurnsRespond(before: seq<Event>, after: seq<Event>, due: bool, e: Event)
    requires Responsive(before) && Turned(before, after, due, e) && (e.Started? || (due && e.Ticked?))
    ensures Responsive(after)
  {
    var i :| |before| <= i && TakenAt(after, i, due, e, |before|);
    assert forall k :: 0 <= k < |before| ==> after[k] == before[k];
  }

  function Occurs(events: seq<Event>, e: Event): nat {
    if events == [] then 0
    else
      var n := |events| - 1;
      Occurs(events[..n], e) + if events[n] == e then 1 else 0
  }

  lemma EarlierPrefixes(events: seq<Event>, e: Event)
    ensures forall j :: 0 <= j <= |events| ==> (events + [e])[..j] == events[..j]
  {
  }

  lemma OneMoreEvent(events: seq<Event>, queued: bool, e: Event)
    requires Coalesced(events, queued) && (e.Started? ==> queued)
    ensures Coalesced(events + [e], e.Fired? || (queued && !e.Started?))
  {
    EarlierPrefixes(events, e);
    var more := events + [e];
    if e.Fired? {
      assert more[|events|] == Fired;
    } else if !e.Started? && queued {
      var i :| 0 <= i < |events| && events[i] == Fired && forall j :: i < j < |events| ==> events[j] != Started;
      assert more[i] == Fired;
    } else if !e.Started? {
      forall i | 0 <= i < |more| && more[i] == Fired
        ensures exists j :: i < j < |more| && more[j] == Started
      {
        var j :| i < j < |events| && events[j] == Started;
        assert more[j] == Started;
      }
    } else {
      assert more[|events|] == Started;
    }
  }

  /** No firing is lost: a reset began after it, or the token for one is still queued. */
  lemma NoFiringLost(events: seq<Event>, queued: bool, i: nat)
    requires Coalesced(events, queued) && i < |events| && events[i] == Fired
    ensures queued || exists j :: i < j < |events| && events[j] == Started
  {
  }

  /** A firing is not forgotten either: as soon as the loop looks while the ticker is not due, it takes the
      token, and the reset that begins answers a firing that was waiting for it. */
  lemma NoFiringForgotten(events: seq<Event>, queued: bool, i: nat, k: nat)
    requires Coalesced(events, queued) && Responsive(events)
    requires i < k < |events| && events[i] == Fired && events[k] == Looked(false)
    ensures exists m :: i < m < |events| && events[m] == Started && Waiting(events[..m])
  {
    assert events[k + 1] == Started;
  }

  /** Resets never outnumber firings, and between two resets the schedule has fired. */
  lemma {:induction false} NoResetWithoutFiring(events: seq<Event>, queued: bool)
    requires Coalesced(events, queued)
    ensures Occurs(events, Started) + (if queued then 1 else 0) <= Occurs(events, Fired)
    ensures forall i, j :: 0 <= i < j < |events| && events[i] == Started && events[j] == Started ==>
              exists k :: i < k < j && events[k] == Fired
  {
    forall i, j | 0 <= i < j < |events| && events[i] == Started && events[j] == Started
      ensures exists k :: i < k < j && events[k] == Fired
    {
      var p := events[..j];
      var k :| 0 <= k < |p| && p[k] == Fired && forall l :: k < l < |p| ==> p[l] != Started;
      assert p[i] == Started && events[k] == Fired;
    }
    CountsAdd(events, queued);
  }

  lemma {:induction false} CountsAdd(events: seq<Event>, queued: bool)
    requires Coalesced(events, queued)
    ensures Occurs(events, Started) + (if queued then 1 else 0) <= Occurs(events, Fired)
  {
    if events != [] {
      var n := |events| - 1;
      var p := events[..n];
      assert forall j :: 0 <= j <= n ==> p[..j] == events[..j];
      CountsAdd(p, Waiting(p));
      if events[n].Started? {
        assert Waiting(p);
      } else if !events[n].Fired? && queued {
        var i :| 0 <= i < |events| && events[i] == Fired && forall j :: i < j < |events| ==> events[j] != Started;
        assert p[i] == Fired;
      }
    }
  }

  /** The flushes and resets begun. */
  function Turns(events: seq<Event>): nat {
    Occurs(events, Ticked) + Occurs(events, Started)
  }

  lemma {:induction false} JustFiredCounts(before: seq<Event>, after: seq<Event>)
    requires JustFired(before, after)
    ensures Turns(after) == Turns(before)
  {
    if |after| == |before| {
      assert after == before;
    } else {
      JustFiredCounts(before, after[..|after| - 1]);
    }
  }

  lemma {:induction false} TurnedCounts(before: seq<Event>, after: seq<Event>, due: bool, e: Event)
    requires Turned(before, after, due, e) && (e.Started? || e.Ticked?)
    ensures before <= after && Turns(after) == Turns(before) + 1
  {
    var i :| |before| <= i && TakenAt(after, i, due, e, |before|);
    var fired, looked, taken := after[..i], after[..i + 1], after[..i + 2];
    JustFiredCounts(before, fired);
    assert looked[..i] == fired && taken[..i + 1] == looked;
    assert Turns(looked) == Turns(fired) && Turns(taken) == Turns(looked) + 1;
    JustFiredCounts(taken, after);
  }

  lemma OneTurn(before: seq<Event>, after: seq<Event>, due: bool)
    requires Turned(before, after, due, Started) || Turned(before, after, due, Ticked)
    ensures before <= after && Turns(after) == Turns(before) + 1
  {
    if Turned(before, after, due, Ticked) {
      TurnedCounts(before, after, due, Ticked);
    } else {
      TurnedCounts(before, after, due, Started);
    }
  }

  // ---------- the books from turn to turn ----------

  /** The books at the beginning, after the bootstrap, after every turn, and after the shutdown. */
  ghost predicate Traced(e: Env, marks: seq<Books>) {
    && marks != [] && !marks[0].starved
    && forall i :: 0 <= i < |marks| - 1 ==> Onward(e, marks[i], marks[i + 1])
  }

  /** Every turn ended before the moment up to which the keys were safe when it began. */
  ghost predicate Punctual(e: Env, marks: seq<Books>) {
    forall i :: 0 <= i < |marks| - 1 ==> !Late(e, marks[i], marks[i + 1])
  }

  lemma OneMoreMark(e: Env, marks: seq<Books>, g: Books)
    requires Traced(e, marks) && Onward(e, marks[|marks| - 1], g)
    ensures Traced(e, marks + [g])
  {
    hide Onward;
    var more := marks + [g];
    forall i | 0 <= i < |more| - 1
      ensures Onward(e, more[i], more[i + 1])
    {
      assert more[i] == marks[i];
    }
  }

  /** The guarantee given to the keys is never missed in a punctual run. */
  lemma {:induction false} PunctualIsSafe(e: Env, marks: seq<Books>, n: nat)
    requires Traced(e, marks) && Punctual(e, marks) && n < |marks|
    ensures !marks[n].starved
  {
    if n > 0 {
      PunctualIsSafe(e, marks, n - 1);
      assert Onward(e, marks[n - 1], marks[n - 1 + 1]) && !Late(e, marks[n - 1], marks[n - 1 + 1]);
    }
  }

  /** It is enough that every turn renews the keys and that two turns in a row take less than the ttl. */
  lemma RenewingIsPunctual(e: Env, marks: seq<Books>)
    requires Traced(e, marks) && e.ttl > 0
    requires forall i :: 0 <= i < |marks| - 1 ==> Renewed(e, marks[i], marks[i + 1])
    requires |marks| > 1 && !marks[0].touched ==> marks[1].now < marks[0].now + e.ttl
    requires |marks| > 1 && marks[0].touched ==> marks[1].now < marks[0].freshUntil
    requires forall i :: 0 <= i < |marks| - 2 ==> marks[i + 2].now < marks[i].now + e.ttl
    ensures Punctual(e, marks)
  {
    hide Onward, NoneBare;
    forall i | 0 <= i < |marks| - 1
      ensures !Late(e, marks[i], marks[i + 1])
    {
      if i > 0 {
        assert Renewed(e, marks[i - 1], marks[i - 1 + 1]) && marks[i - 1 + 2].now < marks[i - 1].now + e.ttl;
      }
    }
  }

  class Runner {
    const d: Daemon
    const resets: bool          // scheduled resets are switched on
    var queued: bool            // the reset channel holds its one token
    ghost var events: seq<Event>
    ghost var marks: seq<Books>

    /** Every state the loop can reach between two of its steps. */
    ghost predicate Valid()
      reads this, d, d.w, d.w.cnt, d.w.rdb
    {
      && d.Valid() && Coalesced(events, queued) && Responsive(events)
      && Traced(d.w.E(), marks) && marks[|marks| - 1] == d.w.g
    }

    constructor (d: Daemon, resets: bool)
      requires d.Valid() && !d.w.g.starved
      ensures Valid() && this.d == d && this.resets == resets && events == [] && marks == [d.w.g]
    {
      hide Daemon.Valid;
      this.d, this.resets := d, resets;
      queued := false;
      events := [];
      marks := [d.w.g];
    }

    lemma LastMark()
      requires Valid()
      ensures marks != [] && marks[|marks| - 1] == d.w.g
    {
    }

    /** The run began with the keyspace `db`. */
    ghost predicate Began(db: Db) {
      forall a :: a in d.w.actions ==> d.w.Initial(a) == Val(Find(db, CounterKey(d.w.host, a)))
    }

    /** The two conservation laws of a run that began with the keyspace `db`: every line that contains
        an action was acknowledged or is still buffered; and the counter holds what it held then, what
        was acknowledged and what failed calls added, minus what our resets removed and what others or an
        expiry took away, which is nothing if nobody touched the action. */
    ghost predicate Accounts(db: Db)
      reads d.w, d.w.cnt, d.w.rdb
    {
      forall a :: a in d.w.actions ==>
        && a in d.w.g.book
        && Count(d.w.cnt.rule, d.w.cnt.processed, a) == Get(d.w.cnt.pending, a) + Acked(d.w.g.calls, a)
        && Explained(db, a, Acked(d.w.g.calls, a))
    }

    /** The counter of `a` is explained by the value it began with and `counted` increments. */
    ghost predicate Explained(db: Db, a: string, counted: int)
      requires a in d.w.g.book
      reads d.w, d.w.rdb
    {
      var start := Val(Find(db, CounterKey(d.w.host, a)));
      && Val(Find(d.w.rdb.db, CounterKey(d.w.host, a)))
      == start + counted + Dup(d.w.g.calls, a) - Removed(d.w.g.calls, a) - TakenAway(d.w.g.book[a])
      && (0 <= start ==> 0 <= TakenAway(d.w.g.book[a]))
      && (Alone(d.w.g.book[a]) ==> TakenAway(d.w.g.book[a]) == 0 && Exact(start, d.w.g.calls, a))
    }

    /** Nothing is buffered any more, so the counter accounts for every line read. */
    ghost predicate Counts(db: Db)
      reads d.w, d.w.cnt, d.w.rdb
    {
      forall a :: a in d.w.actions ==>
        a in d.w.g.book && Explained(db, a, Count(d.w.cnt.rule, d.w.cnt.processed, a))
    }

    lemma AllAccounted(db: Db)
      requires d.Valid() && Began(db)
      ensures Accounts(db) && (d.Complete() ==> Counts(db))
    {
      hide Daemon.Valid, CounterKey, Count, TakenAway, Exact, Alone, Acked, Dup, Removed, Find, Val;
      forall a | a in d.w.actions
        ensures a in d.w.g.book
        ensures Count(d.w.cnt.rule, d.w.cnt.processed, a) == Get(d.w.cnt.pending, a) + Acked(d.w.g.calls, a)
        ensures Explained(db, a, Acked(d.w.g.calls, a))
      {
        d.ExactlyOnce(a);
      }
    }

    /** In a run whose turns are punctual no managed key has ever expired since the first refresh and
        nothing was lost that way.  After the bootstrap the keys of an action nobody else touched are in
        the keyspace, and, once they have been refreshed, with an expiry the clock has not reached. */
    lemma KeysSurvive(a: string)
      requires Valid() && Punctual(d.w.E(), marks) && a in d.w.actions
      ensures a in d.w.g.book && d.w.g.book[a].others.lapses == 0 && d.w.g.book[a].others.lost == 0
      ensures d.initialized && d.w.g.book[a].others.meddles == 0 ==>
                && Lives(CounterKey(d.w.host, a), d.w.g.book[a].bare)
                && (d.w.heartbeat ==> Lives(HeartbeatKey(d.w.host, a), false))
    {
      hide Closed, Daemon.AllFine, Daemon.History, Daemon.Logged, Mirrors, World.Core, Tally, Onward, Punctual,
           Coalesced, CounterKey, HeartbeatKey;
      PunctualIsSafe(d.w.E(), marks, |marks| - 1);
      d.w.NothingExpires(a);
      d.w.CoreAt(a);
      d.FineAt(a, d.pendingHeartbeats);
      MirrorsAt(d.w.host, d.w.g.book, d.w.rdb.db, a);
      FoundThere(d.w.rdb.db, CounterKey(d.w.host, a));
      FoundThere(d.w.rdb.db, HeartbeatKey(d.w.host, a));
    }

    /** The key exists, and once the keys have been refreshed it carries an expiry that lies ahead, or
        none if it was made by an INCRBY whose EXPIRE was lost. */
    ghost predicate Lives(key: string, bare: bool)
      reads d.w, d.w.rdb
    {
      key in d.w.rdb.db &&
      (d.w.ttl > 0 && d.w.g.touched ==>
        var expiry := d.w.rdb.db[key].expiry;
        if expiry.Some? then d.w.rdb.clock < expiry.value else bare)
    }

    /** The scheduler fires: a token already queued covers this firing too. */
    method CronFires()
      requires Coalesced(events, queued)
      modifies `queued, `events
      ensures Coalesced(events, queued) && queued && events == old(events) + [Fired]
    {
      OneMoreEvent(events, queued, Fired);
      if !queued {
        queued := true;
      }
      events := events + [Fired];
    }

    /** The scheduler runs beside the loop, also while a flush or a reset is at work; it shares
        nothing with them but the channel. */
    method CronRuns()
      requires Coalesced(events, queued)
      modifies `queued, `events
      ensures Coalesced(events, queued) && JustFired(old(events), events)
      ensures (queued <==> old(queued) || events != old(events)) && (!resets ==> events == old(events))
    {
      hide Coalesced;
      var times := AnyNat();
      while resets && times > 0
        invariant Coalesced(events, queued) && JustFired(old(events), events)
        invariant (queued <==> old(queued) || events != old(events)) && (!resets ==> events == old(events))
      {
        CronFires();
        times := times - 1;
      }
    }

    method OnReset(time: string)
      requires d.Valid() && Coalesced(events, queued) && queued
      modifies `queued, `events, d, d.w`g, d.w.cnt, d.w.rdb
      ensures d.Valid() && Coalesced(events, queued) && JustFired(old(events) + [Started], events)
      ensures d.w.LinesGrow() && Along(d.w.E(), old(d.w.g), d.w.g, old(d.initialized))
      ensures (old(d.initialized) ==> d.initialized) && old(d.log) <= d.log && old(d.w.g).failures <= d.w.g.failures
      ensures d.w.g.failures == old(d.w.g).failures ==> d.Restarted() && Renewed(d.w.E(), old(d.w.g), d.w.g)
      ensures d.w.g.outages <= old(d.w.g).outages + (if old(d.initialized) then 2 else 3)
    {
      hide Coalesced, Daemon.Valid, Daemon.Drained, AllErased, Minus, Along, Renewed;
      OneMoreEvent(events, queued, Started);
      queued := false;
      events := events + [Started];
      CronRuns();
      d.Reset(time);
      CronRuns();
    }

    method OnTick(time: string)
      requires d.Valid() && Coalesced(events, queued)
      modifies `queued, `events, d, d.w`g, d.w.cnt, d.w.rdb
      ensures d.Valid() && Coalesced(events, queued) && JustFired(old(events) + [Ticked], events)
      ensures d.w.LinesGrow() && Along(d.w.E(), old(d.w.g), d.w.g, old(d.initialized))
      ensures (old(d.initialized) ==> d.initialized) && old(d.log) <= d.log && old(d.w.g).failures <= d.w.g.failures
      ensures d.w.g.failures == old(d.w.g).failures ==> d.Converged() && Renewed(d.w.E(), old(d.w.g), d.w.g)
      ensures d.w.g.outages <= old(d.w.g).outages + (if old(d.initialized) then 1 else 2)
    {
      hide Coalesced, Daemon.Valid, Daemon.Drained, AllFlushed, Minus, Along, Renewed;
      OneMoreEvent(events, queued, Ticked);
      events := events + [Ticked];
      CronRuns();
      d.Flush(time);
      CronRuns();
    }

    /** Enters the books into the trace. */
    ghost method Mark(was: Books)
      requires d.Valid() && Coalesced(events, queued) && Responsive(events)
      requires Traced(d.w.E(), marks) && marks[|marks| - 1] == was && Onward(d.w.E(), was, d.w.g)
      modifies `marks
      ensures Valid() && marks == old(marks) + [d.w.g]
    {
      hide Coalesced, Responsive, Daemon.Valid, Onward, Traced;
      OneMoreMark(d.w.E(), marks, d.w.g);
      marks := marks + [d.w.g];
    }

    /** The loop takes one of the things that are ready: the ticker if it is due, or the reset channel if it
        holds a token.  So a token is taken whenever the ticker is not due. */
    method Select(due: bool) returns (reset: bool)
      requires d.Valid() && Coalesced(events, queued) && (due || queued)
      modifies `queued, `events, d, d.w`g, d.w.cnt, d.w.rdb
      ensures d.Valid() && Coalesced(events, queued) && (due || reset)
      ensures JustFired(old(events) + [Looked(due)] + [if reset then Started else Ticked], events)
      ensures d.w.LinesGrow() && Along(d.w.E(), old(d.w.g), d.w.g, old(d.initialized))
      ensures (old(d.initialized) ==> d.initialized) && old(d.log) <= d.log && old(d.w.g).failures <= d.w.g.failures
      ensures d.w.g.failures == old(d.w.g).failures ==>
                Renewed(d.w.E(), old(d.w.g), d.w.g) && if reset then d.Restarted() else d.Converged()
      ensures d.w.g.outages <= old(d.w.g).outages + (if old(d.initialized) then 2 else 3)
    {
      hide Coalesced, Daemon.Valid, Along, Renewed, JustFired, Daemon.Drained, AllFlushed, AllErased, Minus;
      OneMoreEvent(events, queued, Looked(due));
      events := events + [Looked(due)];
      var time := AnyText();
      var both := Chance();
      reset := queued && (!due || both);
      if reset {
        OnReset(time);
      } else {
        OnTick(time);
      }
    }

    /** One turn of the select loop, after whatever has happened while the loop waited. */
    method Turn(due: bool)
      requires Valid() && (due || queued)
      modifies this, d, d.w`g, d.w.cnt, d.w.rdb
      ensures Valid() && d.w.LinesGrow() && Along(d.w.E(), old(d.w.g), d.w.g, old(d.initialized))
      ensures Turned(old(events), events, due, Started) || (due && Turned(old(events), events, due, Ticked))
      ensures marks == old(marks) + [d.w.g]
      ensures (old(d.initialized) ==> d.initialized) && old(d.log) <= d.log && old(d.w.g).failures <= d.w.g.failures
      ensures d.w.g.failures == old(d.w.g).failures ==> Renewed(d.w.E(), old(d.w.g), d.w.g)
      ensures d.w.g.failures == old(d.w.g).failures ==>
                if Turned(old(events), events, due, Started) then d.Restarted() else d.Converged()
      ensures d.w.g.outages <= old(d.w.g).outages + (if old(d.initialized) then 2 else 3)
    {
      hide Coalesced, Responsive, Daemon.Valid, Along, Renewed, Traced, Drift, Worked, Turned, JustFired,
           Daemon.Drained, AllFlushed, AllErased, Minus, StandsStill;
      CronRuns();
      ghost var fired := events;
      d.Wait();
      ghost var mid := d.w.g;
      DriftAlong(d.w.E(), old(d.w.g), mid);
      DriftStands(d.w.E(), old(d.w.g), mid);
      var reset := Select(due);
      ghost var e := if reset then Started else Ticked;
      FiresAround(old(events), fired, events, due, e);
      TurnsRespond(old(events), events, due, e);
      OnlyOneTaken(old(events), events, due);
      AlongOn(d.w.E(), old(d.w.g), mid, d.w.g, true, old(d.initialized));
      if d.w.g.failures == old(d.w.g).failures {
        RenewedSince(d.w.E(), old(d.w.g), mid, d.w.g);
        if reset {
          d.RestartedSince(mid);
        } else {
          d.ConvergedSince(mid);
        }
      }
      Mark(old(d.w.g));
    }

    /** The schedule may fire while the loop has nothing to do. */
    method Fires()
      requires Valid()
      modifies `queued, `events
      ensures Valid() && old(events) <= events && Turns(events) == Turns(old(events))
    {
      hide Coalesced, Responsive, Daemon.Valid, Traced, Turns;
      ghost var before := events;
      CronRuns();
      FiringsRespond(before, events);
      JustFiredCounts(before, events);
    }

    /** The loop waits until something is ready, and takes it. */
    method Step()
      requires Valid()
      modifies this, d, d.w`g, d.w.cnt, d.w.rdb
      ensures Valid() && d.w.LinesGrow() && Onward(d.w.E(), old(d.w.g), d.w.g) && old(d.w.g).failures <= d.w.g.failures
      ensures old(marks) <= marks && old(d.log) <= d.log && (old(d.initialized) ==> d.initialized)
      ensures old(events) <= events && Turns(events) - Turns(old(events)) == |marks| - |old(marks)|
    {
      hide Coalesced, Responsive, Daemon.Valid, Onward, Along, Traced, Turned, Turns, JustFired, Daemon.Converged,
           Daemon.Restarted;
      StandsHere(d.w.E(), d.w.g);
      Fires();
      var due := Chance();
      if due || queued {
        ghost var fired := events;
        Turn(due);
        OneTurn(fired, events, due);
        AlongIsOnward(d.w.E(), old(d.w.g), d.w.g, old(d.initialized));
      }
    }

    /** The bootstrap is tried once at the start, and then any number of turns are made, until somebody
        asks the daemon to stop. */
    method Work()
      requires Valid()
      modifies this, d, d.w`g, d.w.cnt, d.w.rdb
      ensures Valid() && d.w.LinesGrow() && Onward(d.w.E(), old(d.w.g), d.w.g)
      ensures old(marks) < marks && old(d.log) <= d.log
      ensures old(events) <= events && Turns(events) - Turns(old(events)) == |marks| - |old(marks)| - 1
      ensures d.initialized || old(d.w.g).failures < d.w.g.failures
    {
      hide Coalesced, Daemon.Valid, StandsStill, Onward, Along, Traced, Turned, Turns, JustFired, Daemon.Converged,
           Daemon.Restarted;
      var time := AnyText();
      var _ := d.EnsureInit(time);
      AlongIsOnward(d.w.E(), old(d.w.g), d.w.g, old(d.initialized));
      Mark(old(d.w.g));
      var turns := AnyNat();
      while turns > 0
        invariant Valid() && d.w.LinesGrow() && Onward(d.w.E(), old(d.w.g), d.w.g)
        invariant old(marks) < marks && old(d.log) <= d.log
        invariant old(events) <= events && Turns(events) - Turns(old(events)) == |marks| - |old(marks)| - 1
        invariant d.initialized || old(d.w.g).failures < d.w.g.failures
      {
        ghost var was := d.w.g;
        Step();
        OnwardOn(d.w.E(), old(d.w.g), was, d.w.g);
        turns := turns - 1;
      }
    }

    /** The shutdown, from any state the loop can be in and after any history: when none of its calls
        fails, every counter that nobody else touches meanwhile moves by what is drained, the counters
        account for every line that was ever read, nothing is left to do, and no key will outlive the
        ttl. */
    method Shutdown(ghost db: Db)
      requires Valid() && Began(db)
      modifies this, d, d.w`g, d.w`tailing, d.w.cnt, d.w.rdb
      ensures Valid() && !d.w.tailing && Along(d.w.E(), old(d.w.g), d.w.g, old(d.initialized))
      ensures old(d.w.cnt.processed) <= d.w.cnt.processed && old(d.w.g).failures <= d.w.g.failures
      ensures JustFired(old(events), events) && marks == old(marks) + [d.w.g] && old(d.log) <= d.log && Accounts(db)
      ensures d.w.g.failures == old(d.w.g).failures ==> d.Converged() && d.Complete() && Counts(db)
      ensures d.w.g.failures == old(d.w.g).failures ==> Renewed(d.w.E(), old(d.w.g), d.w.g)
    {
      hide Coalesced, Responsive, Daemon.Valid, Daemon.Complete, Onward, Along, Traced, Renewed, Accounts, Counts,
           Began, AllFlushed, Daemon.Drained, Minus, Get;
      var time := AnyText();
      CronRuns();
      d.Drain(time);
      CronRuns();
      FiringsRespond(old(events), events);
      AlongIsOnward(d.w.E(), old(d.w.g), d.w.g, old(d.initialized));
      Mark(old(d.w.g));
      AllAccounted(db);
    }
  }

  /** From the configuration to the moment the daemon is asked to stop.  `db` is what Redis holds
      beforehand; `sole` says that nobody else writes our keys. */
  method Serve(c: Config, host: string, db: Db, clock: nat, sole: bool)
    returns (errs: seq<Problem>, runner: Option<Runner>)
    modifies c`actions
    ensures errs == Problems(c.settings, old(c.actions)) && (runner.Some? <==> Accepts(c.settings, old(c.actions)))
    ensures runner.Some? ==> fresh(runner.value) && fresh(runner.value.d) && fresh(runner.value.d.w)
    ensures runner.Some? ==> fresh(runner.value.d.w.cnt) && fresh(runner.value.d.w.rdb)
    ensures runner.Some? ==> runner.value.Valid() && Follows(runner.value, c, Normal(old(c.actions)), host, sole)
    ensures runner.Some? ==> runner.value.Began(db) && runner.value.Accounts(db) && runner.value.d.w.tailing
    ensures runner.Some? ==> runner.value.d.initialized || runner.value.d.w.g.failures > 0
    ensures runner.Some? ==> |runner.value.marks| == 2 + Turns(runner.value.events)
  {
    hide Runner.Valid, Daemon.Valid, World.Valid, Problems, Remarks, Normal, Runner.Accounts, Runner.Began, Onward,
         Mirrors, Closed, CounterKey, HeartbeatKey, Opening, InAgreement;
    runner := None;
    AcceptsMeans(c.settings, c.actions);
    var warnings;
    warnings, errs := c.Validate();
    if errs != [] {
      return;
    }
    var rule := Rule(c.settings.caseSensitive, c.fold);
    var w := new World(c.actions, rule, host, c.settings.heartbeatKey, c.settings.redisTtl, sole, db, clock);
    OpeningStart(w.E(), db, clock);
    var d := new Daemon(w);
    var r := new Runner(d, c.settings.resetEnabled);
    BeganWith(r, db, clock);
    r.Work();
    Accounted(r, db);
    runner := Some(r);
  }

  /** The process from its configuration to its end. */
  method Process(c: Config, host: string, db: Db, clock: nat, sole: bool)
    returns (errs: seq<Problem>, runner: Option<Runner>)
    modifies c`actions
    ensures errs == Problems(c.settings, old(c.actions)) && (runner.Some? <==> Accepts(c.settings, old(c.actions)))
    ensures runner.Some? ==> runner.value.Valid() && Follows(runner.value, c, Normal(old(c.actions)), host, sole)
    ensures runner.Some? ==> runner.value.Accounts(db) && !runner.value.d.w.tailing
    ensures runner.Some? ==> |runner.value.marks| == 3 + Turns(runner.value.events)
    ensures runner.Some? && HealthyEnd(runner.value) ==>
              && runner.value.d.initialized && runner.value.d.Idle() && runner.value.d.Complete()
              && runner.value.Counts(db)
              && Renewed(runner.value.d.w.E(), BeforeEnd(runner.value), runner.value.d.w.g)
  {
    hide Runner.Valid, Daemon.Valid, Problems, Normal, Runner.Accounts, Runner.Counts, Runner.Began, Daemon.Complete,
         Along, Renewed, JustFired, AllFlushed, Daemon.Drained, Minus;
    errs, runner := Serve(c, host, db, clock, sole);
    if runner.Some? {
      ghost var done := runner.value.events;
      runner.value.LastMark();
      runner.value.Shutdown(db);
      JustFiredCounts(done, runner.value.events);
    }
  }

  /** The books at the beginning of the shutdown, the last part of the run. */
  ghost function BeforeEnd(r: Runner): Books
    requires |r.marks| >= 2
    reads r
  {
    r.marks[|r.marks| - 2]
  }

  /** No call of the shutdown failed. */
  ghost predicate HealthyEnd(r: Runner)
    requires |r.marks| >= 2
    reads r, r.d, r.d.w
  {
    r.d.w.g.failures == BeforeEnd(r).failures
  }

  /** The daemon runs with the settings and the actions of its configuration. */
  ghost predicate Follows(r: Runner, c: Config, actions: seq<string>, host: string, sole: bool) {
    && r.d.w.actions == actions && r.d.w.host == host && r.d.w.sole == sole
    && r.d.w.cnt.rule == Rule(c.settings.caseSensitive, c.fold)
    && r.d.w.heartbeat == c.settings.heartbeatKey && r.d.w.ttl == c.settings.redisTtl
    && r.resets == c.settings.resetEnabled
  }

  lemma StandsHere(e: Env, g: Books)
    ensures Onward(e, g, g)
  {
  }

  lemma OpeningStart(e: Env, db: Db, clock: nat)
    ensures var g := Opening(e, db, clock); !g.starved && g.failures == 0
  {
  }

  lemma BeganWith(r: Runner, db: Db, clock: nat)
    requires r.d.w.opening == Opening(r.d.w.E(), db, clock)
    ensures r.Began(db)
  {
    hide CounterKey, HeartbeatKey, Opening;
    forall a | a in r.d.w.actions
      ensures r.d.w.Initial(a) == Val(Find(db, CounterKey(r.d.w.host, a)))
    {
      OpeningAt(r.d.w.E(), db, clock, a);
    }
  }

  lemma Accounted(r: Runner, db: Db)
    requires r.Valid() && r.Began(db)
    ensures r.Accounts(db)
  {
    hide Daemon.Valid, Coalesced, Traced, Runner.Began, Runner.Accounts;
    r.AllAccounted(db);
  }
}
