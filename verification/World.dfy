/** Everything the daemon shares with others: the line buffer, which the tailer fills, and the Redis
    server, which other processes write and whose keys expire.  `Interleave` stands at every point
    where another goroutine or process can run. */
module Worlds {
  import opened Prelude
  import opened Matching
  import opened Counters
  import opened Keyspace
  import opened Redis
  import opened Ledger
  import opened Commands

  class World {
    const cnt: Counter
    const rdb: Server
    const actions: seq<string>
    const host: string
    const heartbeat: bool
    const ttl: nat
    const sole: bool      // no other process writes or deletes our keys
    var tailing: bool     // the tailer still delivers lines
    ghost var g: Books

    /** At the start every monitoring value is absent or reports what its counter holds. */
    ghost const agreed: bool

    /** The books before the first command. */
    ghost const opening: Books

    constructor (actions: seq<string>, rule: Rule, host: string, heartbeat: bool, ttl: nat, sole: bool,
                 db: Db, clock: nat)
      ensures Valid() && Closed(g)
      ensures this.actions == actions && this.host == host && this.heartbeat == heartbeat && this.ttl == ttl
      ensures this.sole == sole
      ensures fresh(cnt) && fresh(rdb)
      ensures cnt.rule == rule && cnt.processed == [] && cnt.taken == map[] && cnt.seen == [] && cnt.pending == map[]
      ensures tailing && rdb.db == db && rdb.clock == clock
      ensures g == Opening(Env(Elements(actions), host, heartbeat, ttl, sole), db, clock)
      ensures opening == g
      ensures agreed == InAgreement(g.book)
    {
      hide CounterKey, HeartbeatKey, Tally, Sound, Mirrors, Audited, Settled, Clocked, Counter.Valid, InAgreement,
           StartsFrom, Val, Find;
      this.actions, this.host, this.heartbeat, this.ttl, this.sole := actions, host, heartbeat, ttl, sole;
      cnt := new Counter(actions, rule);
      rdb := new Server(db, clock);
      tailing := true;
      var o := Opening(Env(Elements(actions), host, heartbeat, ttl, sole), db, clock);
      g := o;
      opening := o;
      agreed := InAgreement(o.book);
      OpeningHolds(Env(Elements(actions), host, heartbeat, ttl, sole), db, clock);
      OpeningStarts(Env(Elements(actions), host, heartbeat, ttl, sole), db, clock);
    }

    ghost function E(): Env {
      Env(Elements(actions), host, heartbeat, ttl, sole)
    }

    /** No increment is acknowledged that was not drained, so what is in flight is never negative. */
    ghost predicate Covered()
      reads `g, cnt`taken
    {
      forall a :: a in g.book ==> g.book[a].acked <= Get(cnt.taken, a)
    }

    /** What the counter of an action held at the start. */
    ghost function Initial(a: string): int {
      if a in opening.book then opening.book[a].initial else 0
    }

    /** The accounts remember what the counters held at the start, and with the monitoring value
        switched off its keys are what they were then, unless they were deleted or have expired. */
    ghost predicate Remembered()
      reads `g
    {
      StartsFrom(E(), opening.book, g.book)
    }

    ghost predicate Core()
      reads `g, cnt, rdb`clock
    {
      && cnt.Valid() && cnt.Positive() && cnt.actions == actions
      && g.book.Keys == Elements(actions)
      && g.now == rdb.clock
      && Clocked(E(), g)
      && (forall a :: a in g.book ==> Sound(E(), g, g.book[a]))
      && Covered() && Remembered()
    }

    ghost predicate Valid()
      reads `g, cnt, rdb
    {
      Core() && Mirrors(host, g.book, rdb.db)
    }

    lemma CoreAt(a: string)
      requires Core() && a in actions
      ensures a in g.book && g.now == rdb.clock && Clocked(E(), g) && Sound(E(), g, g.book[a]) && Balanced(g.book[a])
    {
    }

    lemma InitialAt(a: string)
      requires Core() && a in g.book
      ensures g.book[a].initial == Initial(a)
      ensures g.book[a].action == a && a in opening.book && Pristine(opening.book[a])
      ensures FromStart(E(), opening.book[a], g.book[a])
    {
    }

    lemma BufferIsValid()
      requires Core()
      ensures cnt.Valid() && cnt.Positive() && cnt.actions == actions && g.book.Keys == Elements(actions)
    {
    }

    /** Increments drained from the buffer and neither acknowledged by Redis nor put back. */
    ghost function InFlight(a: string): int
      reads `g, cnt`taken
    {
      Get(cnt.taken, a) - if a in g.book then g.book[a].acked else 0
    }

    /** What the buffer goes through while only other goroutines use it. */
    twostate predicate LinesOnly()
      reads `tailing, cnt
    {
      && cnt.taken == old(cnt.taken) && cnt.seen == old(cnt.seen)
      && old(cnt.processed) <= cnt.processed
      && (!tailing ==> cnt.processed == old(cnt.processed))
      && tailing == old(tailing)
    }

    twostate predicate Drifted()
      reads this, cnt, rdb
    {
      Drift(E(), old(g), g) && LinesOnly()
    }

    /** Conservation, at every point where Valid holds: each matched line is buffered, in flight or
        acknowledged, and no buffer or total outgrows the number of lines read. */
    lemma Conservation(a: string)
      requires Valid() && Distinct(actions) && a in actions
      ensures cnt.matched[a] == Count(cnt.rule, cnt.processed, a)
      ensures cnt.matched[a] == Get(cnt.pending, a) + InFlight(a) + g.book[a].acked
      ensures 0 <= Get(cnt.pending, a) && 0 <= InFlight(a)
      ensures Get(cnt.pending, a) + InFlight(a) <= cnt.matched[a] <= cnt.lines
    {
      hide Mirrors;
      TallyIsCount(cnt.rule, actions, cnt.processed, a);
      CountAtMostLines(cnt.rule, cnt.processed, a);
      CoreAt(a);
    }

    /** The other half: what the counter key holds is what it held at the start, plus every acknowledged
        increment and every increment applied by a call that failed, minus what our resets removed and
        what was lost to others or to an expiry. */
    lemma RedisConservation(a: string)
      requires Valid() && Closed(g) && a in actions
      ensures a in g.book
      ensures Val(Find(rdb.db, CounterKey(host, a))) == Held(Initial(a), g.calls, a) - TakenAway(g.book[a])
      ensures Alone(g.book[a]) ==> TakenAway(g.book[a]) == 0
      ensures 0 <= Initial(a) ==> 0 <= TakenAway(g.book[a]) && 0 <= Val(Find(rdb.db, CounterKey(host, a)))
      ensures Acked(g.calls, a) == g.book[a].acked
    {
      hide CounterKey, HeartbeatKey, Core;
      CoreAt(a);
      InitialAt(a);
      MirrorsAt(host, g.book, rdb.db, a);
      RecordedAt(g, a);
    }

    /** At every moment the counter of an action nobody else has touched follows from the calls alone. */
    lemma HeldAt(a: string)
      requires Valid() && Closed(g) && a in g.book
      ensures Alone(g.book[a]) ==> Val(g.book[a].counter) == Held(Initial(a), g.calls, a)
    {
      hide Mirrors, Closed, Sound, Held;
      InitialAt(a);
      if Alone(g.book[a]) {
        HeldNow(E(), g, a);
      }
    }

    /** No managed key has expired since the first refresh, and nothing was lost that way, unless the
        clock once reached the moment up to which the keys were guaranteed to live. */
    lemma NothingExpires(a: string)
      requires Valid() && !g.starved && a in actions
      ensures a in g.book && g.book[a].others.lapses == 0 && g.book[a].others.lost == 0
      ensures g.touched && ttl > 0 ==> rdb.clock < g.freshUntil
    {
      hide Mirrors, Tally, Balanced, Timed;
      CoreAt(a);
    }

    /** Once every command has been over for a ttl, no managed key is left when the clock moves on,
        except counters whose expiry was lost; and the expiry of a counter can only have been lost if
        the latest call that wrote it, later than the latest refresh, was a failed increment. */
    lemma AllGone(a: string, now: nat)
      requires Valid() && Closed(g) && g.touched && ttl > 0 && a in actions && g.lastWrite + ttl <= now
      ensures a in g.book && (Unexpired(Find(rdb.db, CounterKey(host, a)), now).Some? <==> g.book[a].bare)
      ensures heartbeat ==> Unexpired(Find(rdb.db, HeartbeatKey(host, a)), now).None?
      ensures g.book[a].bare ==> exists i :: g.refreshedAt <= i < |g.calls| && LastInVain(g.calls, i, a)
    {
      hide CounterKey, HeartbeatKey, Core;
      CoreAt(a);
      MirrorsAt(host, g.book, rdb.db, a);
      GoneAfterTtl(E(), g, g.book[a], now);
      RecordedAt(g, a);
      StrandedMeaning(g.calls, g.refreshedAt, a);
    }

    /** After a refresh that succeeded every managed key that exists carries an expiry, no earlier than a
        ttl after the refresh began and no later than a ttl after the latest write. */
    lemma KeysTimed(a: string)
      requires Valid() && g.touched && NoneBare(g) && ttl > 0 && a in actions
      ensures var c := Find(rdb.db, CounterKey(host, a));
              c.Some? ==> c.value.expiry.Some? && g.freshUntil <= c.value.expiry.value <= g.lastWrite + ttl
      ensures var h := Find(rdb.db, HeartbeatKey(host, a));
              heartbeat && h.Some? ==> h.value.expiry.Some? && g.freshUntil <= h.value.expiry.value <= g.lastWrite + ttl
    {
      hide CounterKey, HeartbeatKey, Core;
      CoreAt(a);
      MirrorsAt(host, g.book, rdb.db, a);
    }

    /** When every key carries its expiry, as it does after a refresh that succeeded, nothing outlives the
        ttl. */
    lemma AllGoneWhenRefreshed(a: string, now: nat)
      requires Valid() && NoneBare(g) && g.touched && ttl > 0 && a in actions && g.lastWrite + ttl <= now
      ensures Unexpired(Find(rdb.db, CounterKey(host, a)), now).None?
      ensures heartbeat ==> Unexpired(Find(rdb.db, HeartbeatKey(host, a)), now).None?
    {
      hide CounterKey, HeartbeatKey, Core;
      CoreAt(a);
      MirrorsAt(host, g.book, rdb.db, a);
      GoneAfterTtl(E(), g, g.book[a], now);
    }

    /** Neither the buffer of an action nor the whole buffer outgrows what has been read. */
    lemma BuffersBounded()
      requires Valid() && Distinct(actions)
      ensures forall a :: 0 <= Get(cnt.pending, a) <= cnt.lines
      ensures Sum(cnt.pending) <= |actions| * cnt.lines
    {
      hide Mirrors, Sum, Clocked, Timed;
      forall a
        ensures Get(cnt.taken, a) >= 0
      {
        if a in actions {
          CoreAt(a);
        } else {
          TallyIsCount(cnt.rule, actions, cnt.processed, a);
        }
      }
      cnt.BufferBounds();
    }

    /** With the monitoring value switched off no operation in a whole run writes or re-expires its key:
        it is what it was at the start, or gone. */
    lemma HeartbeatUntouched(a: string)
      requires Valid() && !heartbeat && a in actions
      ensures a in opening.book
      ensures var h := Find(rdb.db, HeartbeatKey(host, a)); h.None? || h == opening.book[a].heartbeat
    {
      hide KeyStep, CounterKey, HeartbeatKey, Core;
      CoreAt(a);
      InitialAt(a);
      MirrorsAt(host, g.book, rdb.db, a);
    }

    /** A monitoring value names the host and the action of its key, unless it has been there since before
        the first command. */
    lemma BeatsNameTheirKey(a: string)
      requires Valid() && a in actions
      ensures a in opening.book
      ensures var h := Find(rdb.db, HeartbeatKey(host, a));
              h.None? || ValueOf(h) == ValueOf(opening.book[a].heartbeat) || IsBeatOf(E(), a, h)
    {
      hide KeyStep, CounterKey, HeartbeatKey, Core;
      CoreAt(a);
      InitialAt(a);
      MirrorsAt(host, g.book, rdb.db, a);
    }

    /** With the expiry switched off: a managed key carries one only if it carried that very one at the
        start, no SET of a reset or report has written it since, and no SET NX or PERSIST of the startup
        has; and if nobody else wrote or removed the keys of the action and none expired, exactly then. */
    lemma LeftoverExpiry(a: string)
      requires Valid() && Closed(g) && ttl == 0 && a in actions
      ensures a in g.book && a in opening.book
      ensures Leftover(opening.book[a].counter, Find(rdb.db, CounterKey(host, a)),
                       g.book[a].renewals.key || EverSet(g.calls, a, false), Alone(g.book[a]))
      ensures heartbeat ==>
                Leftover(opening.book[a].heartbeat, Find(rdb.db, HeartbeatKey(host, a)),
                         g.book[a].renewals.beat || EverSet(g.calls, a, true), Alone(g.book[a]))
    {
      hide CounterKey, HeartbeatKey, Core, EverSet;
      CoreAt(a);
      InitialAt(a);
      MirrorsAt(host, g.book, rdb.db, a);
      RecordedAt(g, a);
    }

    /** With the expiry switched off and the refresh at startup done, no managed key carries one. */
    lemma NoneExpires(a: string)
      requires Valid() && g.touched && ttl == 0 && a in actions
      ensures var c := Find(rdb.db, CounterKey(host, a)); c.Some? ==> c.value.expiry.None?
      ensures var h := Find(rdb.db, HeartbeatKey(host, a)); heartbeat && h.Some? ==> h.value.expiry.None?
    {
      hide CounterKey, HeartbeatKey, Core;
      CoreAt(a);
      MirrorsAt(host, g.book, rdb.db, a);
    }

    /** Enters the new state of one account, whose keys have just been written, into the books. */
    ghost method Record(a: string, y: Account, h: Books)
      requires Core() && a in g.book && y.acked == g.book[a].acked && FromStart(E(), g.book[a], y)
      requires h == Written(g, a, y)
      requires Sound(E(), h, y) && Mirrors(host, h.book, rdb.db)
      modifies `g
      ensures Valid() && g == h
    {
      hide StartsFrom, FromStart, CounterKey, HeartbeatKey, Mirrors, Tally, Sound, Get, AllPositive, Counter.Valid;
      WrittenStartsFrom(E(), opening.book, g.book, a, y);
      SoundAfter(E(), g, h, a);
      g := h;
    }

    /** Enters a finished call into the history and into the account of its action. */
    ghost method File(c: Call, trip: Option<Option<Error>>)
      requires Valid() && c.action in actions
      requires c.Increment? ==> 0 <= c.delta <= InFlight(c.action)
      modifies `g
      ensures Valid() && c.action in old(g).book && g == Filed(old(g), c, trip)
    {
      hide StartsFrom, CounterKey, HeartbeatKey, Tally, Sound, Find, Get, AllPositive, Counter.Valid, IsUnavailable,
           Filed, Clocked;
      SoundFiled(E(), g, c, trip);
      FiledStartsFrom(E(), opening.book, g, c, trip);
      FiledSame(E(), g, c, trip);
      g := Filed(g, c, trip);
    }

    /** Closes a call that began with the books `from`: its commands are done, and the history and the
        accounts are brought into agreement again. */
    ghost method Close(from: Books, c: Call, trip: Option<Option<Error>>)
      requires Valid() && c.action in actions && c.action in from.book && c.action in g.book
      requires Closed(from) && Worked(E(), from, g, c.action) && g.calls == from.calls
      requires SameLedger(Effect(from.book[c.action], c), g.book[c.action])
      requires BareAfter(from.book[c.action], g.book[c.action], c)
      requires c.Increment? ==>
                && (c.error.None? ==> c.applied) && 0 <= c.delta
                && from.book[c.action].acked + c.delta <= Get(cnt.taken, c.action)
      modifies `g
      ensures Valid() && g == Filed(old(g), c, trip)
      ensures Closed(g) && Worked(E(), from, g, c.action)
      ensures c.action in g.book && SameLedger(After(from.book[c.action], c), g.book[c.action])
    {
      hide CounterKey, HeartbeatKey, Mirrors, Tally, Sound, Core, Closed, Worked, IsUnavailable, Get;
      EffectAcked(from.book[c.action], c);
      CallCloses(E(), from, g, c, trip);
      File(c, trip);
    }

    /** Records the end of a refresh of all keys that began with the books `from`. */
    ghost method MarkRefreshed(from: Books, error: Option<Error>)
      requires Valid() && Closed(g) && Rested(E(), from, g) && SameRefresh(from, g)
      requires from.freshUntil <= from.now + ttl
      requires error.None? ==> AllRefreshed(E(), g, actions, from.now)
      modifies `g
      ensures Valid() && Closed(g) && Rested(E(), from, g)
      ensures g == RefreshDone(E(), old(g), from.now, error) && (error.None? ==> NoneBare(g))
    {
      hide CounterKey, HeartbeatKey, Mirrors, Tally, Sound, Get, AllPositive, Counter.Valid, Closed, Rested, Clocked,
           AllRefreshed, IsUnavailable;
      RefreshHolds(E(), from, g, actions, error);
      g := RefreshDone(E(), g, from.now, error);
    }

    /** Counts the round trip of a bootstrap that began with the books `from`. */
    ghost method Conclude(from: Books, error: Option<Error>)
      requires Valid() && Closed(g) && AllBooted(E(), from, g)
      modifies `g
      ensures Valid() && Closed(g) && AllBooted(E(), from, g)
      ensures g == Tripped(old(g), error)
      ensures forall some :: AllThere(E(), from, old(g), some) ==> AllThere(E(), from, g, some)
    {
      hide CounterKey, HeartbeatKey, Mirrors, Tally, Sound, Get, AllPositive, Counter.Valid, Closed, Clocked,
           AllBooted, IsUnavailable;
      TripHolds(E(), from, g, error);
      g := Tripped(g, error);
    }

    /** The consumer goroutine takes one item off the tailer: a line, or an error to skip. */
    method LineArrives()
      requires Valid()
      modifies cnt
      ensures Valid() && Drifted()
    {
      hide Remembered, Mirrors, Tally, Sound, Get, Match, Drift, Clocked, AllPositive;
      DriftsNowhere(E(), g);
      var failed := Chance();
      var text := AnyText();
      if tailing && !failed {
        var _ := cnt.ProcessLine(text);
      }
    }

    method TimePasses()
      requires Valid()
      modifies this`g, rdb
      ensures Valid() && Drifted() && rdb.sent == old(rdb.sent)
    {
      hide Tally, CounterKey, HeartbeatKey, Sound, Get, AllPositive, Counter.Valid, Clocked, StartsFrom, AgedBooks,
           Find, Drift;
      var seconds := AnyNat();
      rdb.Advance(seconds);
      AgedIsDrift(E(), g, rdb.clock);
      AgedKeys(E(), g, rdb.clock);
      DriftStartsFrom(E(), opening.book, g, AgedBooks(E(), g, rdb.clock));
      g := AgedBooks(E(), g, rdb.clock);
    }

    /** Another process, `logstat clear` or an operator, writes or deletes a key of ours. */
    method OthersWrite()
      requires Valid() && !sole
      modifies this`g, rdb`db
      ensures Valid() && Drifted()
    {
      hide CounterKey, HeartbeatKey, Mirrors, Tally, Sound, Get, AllPositive, AccountDrift, Counter.Valid;
      DriftsNowhere(E(), g);
      var k := AnyNat();
      var delete := Chance();
      var beat := Chance();
      var time := AnyText();
      if k < |actions| && (delete || heartbeat || !beat) {
        var value := if beat then Beat(Heartbeat(host, time, actions[k], 0)) else Number(0);
        OthersWriteKey(actions[k], beat, if delete then None else Some(Stamp(value, ttl, rdb.clock)));
      }
    }

    method OthersWriteKey(a: string, beat: bool, entry: Option<Entry>)
      requires Valid() && !sole && a in actions
      requires entry.Some? ==> entry.value == Stamp(entry.value.value, ttl, rdb.clock)
      requires entry.Some? && beat ==> heartbeat && IsBeatOf(E(), a, entry)
      requires entry.Some? && !beat ==> entry.value == Stamp(Number(0), ttl, rdb.clock)
      modifies this`g, rdb`db
      ensures Valid() && Drifted()
    {
      hide FromStart, StartsFrom, CounterKey, HeartbeatKey, Mirrors, Tally, Sound, Get, AllPositive, AccountDrift,
           Stamp, Find, Clocked, Covered, Remembered, Counter.Valid, Drift, KeyDrift;
      assert a in g.book;
      InitialAt(a);
      ghost var y := if beat then BeatTaken(g.book[a], entry) else CounterTaken(g.book[a], entry);
      if beat {
        MeddledBeat(E(), g, a, entry);
        HeartbeatWritten(host, g.book, rdb.db, a, entry, y);
      } else {
        MeddledCounter(E(), g, a, entry);
        CounterWritten(host, g.book, rdb.db, a, entry, y);
      }
      rdb.db := Put(rdb.db, if beat then HeartbeatKey(host, a) else CounterKey(host, a), entry);
      Record(a, y, Meddled(g, a, y));
    }

    /** Another goroutine or process runs for a while. */
    method Interleave()
      requires Valid()
      modifies this`g, cnt, rdb
      ensures Valid() && Drifted() && rdb.sent == old(rdb.sent)
    {
      hide Tally, Sound, AccountDrift, Mirrors, KeyDrift;
      var steps := AnyNat();
      DriftsNowhere(E(), g);
      while steps > 0
        invariant Valid() && Drifted() && rdb.sent == old(rdb.sent)
      {
        ghost var before := g;
        var what := AnyNat();
        if what == 0 {
          LineArrives();
        } else if what == 1 {
          TimePasses();
        } else if !sole {
          OthersWrite();
        } else {
          DriftsNowhere(E(), g);
        }
        DriftsOn(E(), old(g), before, g);
        steps := steps - 1;
      }
    }

    /** Stops the tailer and waits for the consumer: what has been read is still counted. */
    method StopTailing()
      requires Valid()
      modifies this`g, this`tailing, cnt, rdb
      ensures Valid() && !tailing && Drift(E(), old(g), g)
      ensures cnt.taken == old(cnt.taken) && cnt.seen == old(cnt.seen) && old(cnt.processed) <= cnt.processed
    {
      hide Tally, Sound, Mirrors, Core, Drift;
      Interleave();
      tailing := false;
    }

    // ---------- the daemon's own use of the buffer ----------

    /** The daemon drains the buffer, after whatever others did. */
    method TakeAll() returns (deltas: map<string, int>)
      requires Valid()
      modifies this`g, cnt, rdb
      ensures Valid() && Drift(E(), old(g), g) && LinesGrow()
      ensures AllPositive(deltas, actions) && cnt.taken == Plus(old(cnt.taken), deltas)
      ensures cnt.seen == cnt.processed && old(cnt.seen) <= cnt.seen && forall a :: Get(cnt.taken, a) == cnt.Marked(a)
    {
      hide Remembered, CounterKey, HeartbeatKey, Mirrors, Tally, Sound, Drift, Clocked, Plus;
      Interleave();
      deltas := cnt.Drain();
    }

    /** The daemon puts increments back, after whatever others did. */
    method PutBack(deltas: map<string, int>)
      requires Valid() && AllPositive(deltas, actions)
      requires forall a :: a in g.book ==> g.book[a].acked <= Get(cnt.taken, a) - Get(deltas, a)
      modifies this`g, cnt, rdb
      ensures Valid() && Drift(E(), old(g), g) && LinesGrow()
      ensures cnt.taken == Minus(old(cnt.taken), deltas) && cnt.seen == old(cnt.seen)
    {
      hide Remembered, CounterKey, HeartbeatKey, Mirrors, Tally, Sound, Drift, Clocked, Minus, Get;
      Interleave();
      DriftLedger(E(), old(g), g);
      cnt.Restore(deltas);
    }

    twostate predicate LinesGrow()
      reads `tailing, cnt
    {
      && old(cnt.processed) <= cnt.processed
      && (!tailing ==> cnt.processed == old(cnt.processed))
      && tailing == old(tailing)
    }

    // ---------- the commands of the daemon on the keys of one action ----------

    method SendZero(a: string) returns (r: Result<()>, ghost applied: bool, ghost removed: int)
      requires Valid() && a in actions
      modifies this`g, cnt, rdb
      ensures Valid() && LinesOnly() && Commanded(E(), old(g), g, a) && rdb.sent == old(rdb.sent) + 1
      ensures ZeroSent(E(), old(g).book[a], g.book[a], applied, removed)
      ensures r.Ok? ==> applied
    {
      hide FromStart, StartsFrom, CounterKey, HeartbeatKey, Mirrors, Tally, Sound, Find, Core, Commanded, Drift,
           Clocked, LinesOnly, Stamp, Val, ZeroSent;
      CoreAt(a);
      Interleave();
      CoreAt(a);
      ghost var m, db := g, rdb.db;
      removed := Val(m.book[a].counter);
      r, applied := rdb.Set(CounterKey(host, a), Number(0), ttl);
      ghost var y := if applied then ZeroWrite(E(), m.now, m.book[a]) else m.book[a];
      ZeroSends(E(), old(g), m, a, applied);
      CounterWritten(host, m.book, db, a, y.counter, y);
      Record(a, y, Written(m, a, y));
    }

    method SendBeat(a: string, time: string, lines: int) returns (r: Result<()>, ghost applied: bool, ghost actual: int)
      requires Valid() && a in actions && heartbeat
      modifies this`g, cnt, rdb
      ensures Valid() && LinesOnly() && Commanded(E(), old(g), g, a) && rdb.sent == old(rdb.sent) + 1
      ensures BeatSent(E(), old(g).book[a], g.book[a], Heartbeat(host, time, a, lines), applied)
      ensures Quiet(old(g).book[a], g.book[a]) ==> actual == Val(old(g).book[a].counter)
      ensures r.Ok? ==> applied
    {
      hide FromStart, StartsFrom, CounterKey, HeartbeatKey, Mirrors, Tally, Sound, Find, Core, Commanded, Drift,
           Clocked, LinesOnly, Stamp, Val, BeatSent;
      CoreAt(a);
      Interleave();
      CoreAt(a);
      InitialAt(a);
      ghost var m, db := g, rdb.db;
      DriftValues(E(), old(g), m, a);
      actual := Val(m.book[a].counter);
      var beat := Heartbeat(host, time, a, lines);
      r, applied := rdb.Set(HeartbeatKey(host, a), Beat(beat), ttl);
      ghost var y := if applied then BeatWrite(E(), m.now, m.book[a], beat) else m.book[a];
      BeatSends(E(), old(g), m, a, beat, applied);
      HeartbeatWritten(host, m.book, db, a, y.heartbeat, y);
      Record(a, y, Written(m, a, y));
    }

    method SendIncr(a: string, delta: int) returns (r: Result<int>, ghost applied: bool)
      requires Valid() && a in actions && 0 <= delta
      modifies this`g, cnt, rdb
      ensures Valid() && LinesOnly() && Commanded(E(), old(g), g, a) && rdb.sent == old(rdb.sent) + 1
      ensures IncrSent(E(), old(g).book[a], g.book[a], delta, applied)
      ensures r.Ok? ==> applied && r.value == Val(g.book[a].counter)
    {
      hide FromStart, StartsFrom, CounterKey, HeartbeatKey, Mirrors, Tally, Sound, Find, Core, Commanded, Drift,
           Clocked, LinesOnly, Stamp, Val, IncrSent;
      CoreAt(a);
      Interleave();
      CoreAt(a);
      ghost var m, db := g, rdb.db;
      MirrorsAt(host, m.book, db, a);
      FoundThere(db, CounterKey(host, a));
      r, applied := rdb.IncrBy(CounterKey(host, a), delta);
      ghost var y := if applied then IncrWrite(E(), m.book[a], delta) else m.book[a];
      IncrSends(E(), old(g), m, a, delta, applied);
      CounterWritten(host, m.book, db, a, y.counter, y);
      Record(a, y, Written(m, a, y));
      MirrorsAt(host, g.book, rdb.db, a);
    }

    method SendRefresh(a: string, beat: bool) returns (r: Result<()>, ghost applied: bool)
      requires Valid() && a in actions && (beat ==> heartbeat)
      modifies this`g, cnt, rdb
      ensures Valid() && LinesOnly() && Commanded(E(), old(g), g, a) && rdb.sent == old(rdb.sent) + 1
      ensures RefreshSent(E(), old(g).book[a], g.book[a], beat, old(g).now, g.lastWrite, applied, r.Ok?)
    {
      hide FromStart, StartsFrom, CounterKey, HeartbeatKey, Mirrors, Tally, Sound, Find, Core, Commanded, Drift,
           Clocked, LinesOnly, Stamp, Val, RefreshSent;
      CoreAt(a);
      Interleave();
      CoreAt(a);
      ghost var m, db := g, rdb.db;
      MirrorsAt(host, m.book, db, a);
      FoundThere(db, CounterKey(host, a));
      FoundThere(db, HeartbeatKey(host, a));
      r, applied := rdb.Refresh(if beat then HeartbeatKey(host, a) else CounterKey(host, a), ttl);
      ghost var y := if applied then RefreshWrite(E(), m.now, m.book[a], beat) else m.book[a];
      RefreshSends(E(), old(g), m, a, beat, applied, r.Ok?);
      if beat {
        HeartbeatWritten(host, m.book, db, a, y.heartbeat, y);
      } else {
        CounterWritten(host, m.book, db, a, y.counter, y);
      }
      Record(a, y, Written(m, a, y));
    }

    method SendBootCounter(a: string) returns (r: Result<()>)
      requires Valid() && a in actions
      modifies this`g, cnt, rdb
      ensures Valid() && LinesOnly() && Commanded(E(), old(g), g, a) && rdb.sent == old(rdb.sent) + 1
      ensures Booted(E(), old(g).book[a], g.book[a])
      ensures r.Ok? ==> g.book[a].counter.Some?
    {
      hide FromStart, StartsFrom, CounterKey, HeartbeatKey, Mirrors, Tally, Sound, Find, Core, Commanded, Drift,
           Clocked, LinesOnly, Stamp, Val, Booted;
      CoreAt(a);
      Interleave();
      CoreAt(a);
      ghost var m, db := g, rdb.db;
      ghost var applied: bool;
      MirrorsAt(host, m.book, db, a);
      FoundThere(db, CounterKey(host, a));
      r, applied := rdb.SetNX(CounterKey(host, a), Number(0), ttl);
      ghost var y := if applied then NewCounter(E(), m.now, m.book[a]) else m.book[a];
      CounterBoots(E(), old(g), m, a, applied, r.Ok?);
      CounterWritten(host, m.book, db, a, y.counter, y);
      Record(a, y, Written(m, a, y));
    }

    method SendGet(a: string) returns (r: Result<int>)
      requires Valid() && a in actions
      modifies this`g, cnt, rdb
      ensures Valid() && Drifted() && rdb.sent == old(rdb.sent) + 1
      ensures r.Ok? ==> IsNumber(g.book[a].counter) && r.value == Val(g.book[a].counter)
    {
      hide FromStart, StartsFrom, CounterKey, HeartbeatKey, Mirrors, Tally, Sound, Find, Core, Commanded, Drift,
           Clocked, LinesOnly, Stamp, Val;
      Interleave();
      CoreAt(a);
      MirrorsAt(host, g.book, rdb.db, a);
      ghost var outcome;
      r, outcome := rdb.GetNumber(CounterKey(host, a));
    }

    method SendBootBeat(a: string, time: string, lines: int) returns (r: Result<()>)
      requires Valid() && a in actions && heartbeat
      requires a in g.book && IsNumber(g.book[a].counter) && lines == Val(g.book[a].counter)
      modifies this`g, cnt, rdb
      ensures Valid() && LinesOnly() && Commanded(E(), old(g), g, a) && rdb.sent == old(rdb.sent) + 1
      ensures Booted(E(), old(g).book[a], g.book[a])
      ensures r.Ok? ==> g.book[a].heartbeat.Some?
      ensures Quiet(old(g).book[a], g.book[a]) ==> ValueOf(g.book[a].counter) == ValueOf(old(g).book[a].counter)
    {
      hide FromStart, StartsFrom, CounterKey, HeartbeatKey, Mirrors, Tally, Sound, Find, Core, Commanded, Drift,
           Clocked, LinesOnly, Stamp, Val, Booted;
      CoreAt(a);
      Interleave();
      CoreAt(a);
      InitialAt(a);
      ghost var m, db := g, rdb.db;
      ghost var applied: bool;
      DriftValues(E(), old(g), m, a);
      MirrorsAt(host, m.book, db, a);
      FoundThere(db, HeartbeatKey(host, a));
      var beat := Heartbeat(host, time, a, lines);
      r, applied := rdb.SetNX(HeartbeatKey(host, a), Beat(beat), ttl);
      ghost var y := if applied then NewBeat(E(), m.now, m.book[a], beat) else m.book[a];
      BeatBoots(E(), old(g), m, a, beat, applied, r.Ok?);
      HeartbeatWritten(host, m.book, db, a, y.heartbeat, y);
      Record(a, y, Written(m, a, y));
    }
  }

  /** What an expiry found at the start still means for a key. */
  predicate Leftover(found: Option<Entry>, key: Option<Entry>, renewed: bool, alone: bool) {
    && (HasExpiry(key) ==> SameExpiry(found, key) && !renewed)
    && (alone ==> (HasExpiry(key) <==> HasExpiry(found) && !renewed))
  }

  predicate HasExpiry(key: Option<Entry>) {
    key.Some? && key.value.expiry.Some?
  }
}
