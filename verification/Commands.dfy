/** What one command on a key of ours does to the account of its action: the account before, the
    account after, and, when nobody else interfered, exactly what changed. */
module Commands {
  import opened Prelude
  import opened Keyspace
  import opened Redis
  import opened Ledger

  // ---------- SET counter 0 ----------

  function ZeroWrite(e: Env, now: nat, x: Account): Account {
    Emptied(x, Val(x.counter)).(counter := Some(Stamp(Number(0), e.ttl, now)), bare := false)
  }

  predicate ZeroSent(e: Env, x: Account, y: Account, applied: bool, removed: int) {
    && SameLedger(if applied then Emptied(x, removed) else x, y)
    && (y.bare ==> x.bare && !applied)
    && Unrenewed(x, y)
    && (applied ==> IsNumber(y.counter) && Val(y.counter) == 0)
    && (Quiet(x, y) ==>
      && removed == Val(x.counter)
      && (if applied then y.erased == x.erased + removed
          else y.erased == x.erased && ValueOf(y.counter) == ValueOf(x.counter))
      && (e.heartbeat ==> ValueOf(y.heartbeat) == ValueOf(x.heartbeat)))
  }

  lemma ZeroSends(e: Env, g: Books, m: Books, a: string, applied: bool)
    requires Drift(e, g, m) && a in g.book && Clocked(e, m) && Sound(e, m, m.book[a])
    requires Balanced(g.book[a])
    ensures var y := if applied then ZeroWrite(e, m.now, m.book[a]) else m.book[a];
            && Commanded(e, g, Written(m, a, y), a)
            && Sound(e, Written(m, a, y), y) && FromStart(e, m.book[a], y)
            && ZeroSent(e, g.book[a], y, applied, Val(m.book[a].counter))
  {
    hide Commanded, AccountDrift, ZeroSent, Sound, ZeroWrite, FromStart;
    var x, was := g.book[a], m.book[a];
    var y := if applied then ZeroWrite(e, m.now, was) else was;
    UnwrittenIsSound(e, m, was);
    StartsHere(e, was);
    ZeroIsSound(e, m, was);
    DriftThenCommand(e, g, m, a, y);
    ZeroOfAccount(e, x, was, m.now, applied);
  }

  lemma ZeroIsSound(e: Env, m: Books, x: Account)
    requires Clocked(e, m) && Sound(e, m, x)
    ensures var y := ZeroWrite(e, m.now, x);
            && Later(x, y) && Quiet(x, y) && FromStart(e, x, y) && Sound(e, m.(lastWrite := m.now), y)
            && y.heartbeat == x.heartbeat
  {
  }

  lemma ZeroOfAccount(e: Env, x: Account, m: Account, now: nat, applied: bool)
    requires SameLedger(x, m) && (m.bare ==> x.bare) && m.renewals == x.renewals && (Quiet(x, m) ==> SameKeys(e, x, m))
    ensures ZeroSent(e, x, if applied then ZeroWrite(e, now, m) else m, applied, Val(m.counter))
  {
  }

  // ---------- SET heartbeat ----------

  function BeatWrite(e: Env, now: nat, x: Account, beat: Heartbeat): Account {
    x.(heartbeat := Some(Stamp(Beat(beat), e.ttl, now)), renewals := x.renewals.(beatSet := true))
  }

  predicate BeatSent(e: Env, x: Account, y: Account, beat: Heartbeat, applied: bool) {
    && SameLedger(if applied then x.(renewals := x.renewals.(beatSet := true)) else x, y)
    && (y.bare ==> x.bare)
    && Unrenewed(x, y)
    && (applied ==> ValueOf(y.heartbeat) == Some(Beat(beat)))
    && (Quiet(x, y) ==>
      && ValueOf(y.counter) == ValueOf(x.counter) && y.erased == x.erased
      && (!applied ==> ValueOf(y.heartbeat) == ValueOf(x.heartbeat)))
  }

  lemma BeatSends(e: Env, g: Books, m: Books, a: string, beat: Heartbeat, applied: bool)
    requires Drift(e, g, m) && a in g.book && Clocked(e, m) && Sound(e, m, m.book[a])
    requires e.heartbeat && beat.host == e.host && beat.action == m.book[a].action
    ensures var y := if applied then BeatWrite(e, m.now, m.book[a], beat) else m.book[a];
            && Commanded(e, g, Written(m, a, y), a)
            && Sound(e, Written(m, a, y), y) && FromStart(e, m.book[a], y)
            && BeatSent(e, g.book[a], y, beat, applied)
  {
    hide Commanded, AccountDrift, BeatSent, Sound, BeatWrite, FromStart;
    var x, was := g.book[a], m.book[a];
    var y := if applied then BeatWrite(e, m.now, was, beat) else was;
    UnwrittenIsSound(e, m, was);
    StartsHere(e, was);
    BeatIsSound(e, m, was, beat);
    DriftThenCommand(e, g, m, a, y);
    BeatOfAccount(e, x, was, m.now, beat, applied);
  }

  lemma BeatIsSound(e: Env, m: Books, x: Account, beat: Heartbeat)
    requires Clocked(e, m) && Sound(e, m, x) && e.heartbeat && beat.host == e.host && beat.action == x.action
    ensures var y := BeatWrite(e, m.now, x, beat);
            Later(x, y) && Quiet(x, y) && FromStart(e, x, y) && Sound(e, m.(lastWrite := m.now), y)
  {
  }

  lemma BeatOfAccount(e: Env, x: Account, m: Account, now: nat, beat: Heartbeat, applied: bool)
    requires e.heartbeat
    requires SameLedger(x, m) && (m.bare ==> x.bare) && m.renewals == x.renewals && (Quiet(x, m) ==> SameKeys(e, x, m))
    ensures BeatSent(e, x, if applied then BeatWrite(e, now, m, beat) else m, beat, applied)
  {
  }

  // ---------- INCRBY counter ----------

  function IncrWrite(e: Env, x: Account, delta: int): Account
    requires x.counter.None? || x.counter.value.value.Number?
  {
    x.(counter := Some(Redis.Bumped(x.counter, delta)), applied := x.applied + delta,
       bare := x.bare || (e.ttl > 0 && x.counter.None?), zeroed := false)
  }

  predicate IncrSent(e: Env, x: Account, y: Account, delta: int, applied: bool) {
    && SameLedger(if applied then x.(applied := x.applied + delta, zeroed := false) else x, y)
    && (y.bare ==> (x.bare || applied) && e.ttl > 0)
    && Unrenewed(x, y)
    && (Quiet(x, y) ==>
      && y.erased == x.erased
      && (y.bare <==> x.bare || (applied && e.ttl > 0 && x.counter.None?))
      && (if applied then IsNumber(y.counter) && Val(y.counter) == Val(x.counter) + delta
          else ValueOf(y.counter) == ValueOf(x.counter))
      && (e.heartbeat ==> ValueOf(y.heartbeat) == ValueOf(x.heartbeat)))
  }

  lemma IncrSends(e: Env, g: Books, m: Books, a: string, delta: int, applied: bool)
    requires Drift(e, g, m) && a in g.book && Clocked(e, m) && Sound(e, m, m.book[a])
    requires 0 <= delta && (applied ==> m.book[a].counter.None? || m.book[a].counter.value.value.Number?)
    ensures var y := if applied then IncrWrite(e, m.book[a], delta) else m.book[a];
            && Commanded(e, g, Written(m, a, y), a)
            && Sound(e, Written(m, a, y), y) && FromStart(e, m.book[a], y)
            && IncrSent(e, g.book[a], y, delta, applied)
  {
    hide Commanded, AccountDrift, IncrSent, Sound, IncrWrite, FromStart;
    var x, was := g.book[a], m.book[a];
    var y := if applied then IncrWrite(e, was, delta) else was;
    UnwrittenIsSound(e, m, was);
    StartsHere(e, was);
    if applied {
      IncrIsSound(e, m, was, delta);
    }
    DriftThenCommand(e, g, m, a, y);
    IncrOfAccount(e, x, was, delta, applied);
  }

  lemma StartsHere(e: Env, x: Account)
    ensures FromStart(e, x, x)
  {
  }

  lemma IncrIsSound(e: Env, m: Books, x: Account, delta: int)
    requires Clocked(e, m) && Sound(e, m, x) && (x.counter.None? || x.counter.value.value.Number?) && 0 <= delta
    ensures var y := IncrWrite(e, x, delta);
            && Later(x, y) && Quiet(x, y) && FromStart(e, x, y) && Sound(e, m.(lastWrite := m.now), y)
            && y.heartbeat == x.heartbeat
  {
  }

  lemma IncrOfAccount(e: Env, x: Account, m: Account, delta: int, applied: bool)
    requires SameLedger(x, m) && (m.bare ==> x.bare && e.ttl > 0) && m.renewals == x.renewals
    requires Quiet(x, m) ==> SameKeys(e, x, m)
    requires applied ==> m.counter.None? || m.counter.value.value.Number?
    ensures IncrSent(e, x, if applied then IncrWrite(e, m, delta) else m, delta, applied)
  {
  }

  /** Whatever the books: when an INCRBY makes a missing counter and its EXPIRE does not take effect,
      the failed call leaves the books in order and the counter never expires. */
  lemma LostExpiryStays(e: Env, g: Books, db: Db, a: string, delta: nat)
    requires e.ttl > 0 && a in g.book && g.book[a].counter.None?
    requires Clocked(e, g) && Closed(g) && Mirrors(e.host, g.book, db)
    requires forall b :: b in g.book ==> Sound(e, g, g.book[b])
    ensures var x := IncrWrite(e, g.book[a], delta);
            var h := Filed(Written(g, a, x), Increment(a, delta, true, Some(Transport)), Some(Some(Transport)));
            && Clocked(e, h) && Closed(h) && Mirrors(e.host, h.book, Put(db, CounterKey(e.host, a), x.counter))
            && (forall b :: b in h.book ==> Sound(e, h, h.book[b]))
            && h.book[a].bare && Stranded(h.calls, h.refreshedAt, a)
            && forall now :: Unexpired(h.book[a].counter, now) == Some(Entry(Number(delta), None))
  {
    hide CounterKey, HeartbeatKey, Audited, Settled, Filed, Sound, IsUnavailable, Worked;
    var x, c, trip := IncrWrite(e, g.book[a], delta), Increment(a, delta, true, Some(Transport)), Some(Some(Transport));
    var m := Written(g, a, x);
    LostExpiry(e, g, a, delta);
    CounterWritten(e.host, g.book, db, a, x.counter, x);
    SoundAfter(e, g, m, a);
    SoundFiled(e, m, c, trip);
    FiledSame(e, m, c, trip);
    CallCloses(e, g, m, c, trip);
    FiledTail(m, c, trip);
  }

  lemma LostExpiry(e: Env, g: Books, a: string, delta: nat)
    requires e.ttl > 0 && a in g.book && g.book[a].counter.None? && Clocked(e, g) && Sound(e, g, g.book[a])
    ensures var x, c := IncrWrite(e, g.book[a], delta), Increment(a, delta, true, Some(Transport));
            var m := Written(g, a, x);
            && Sound(e, m, x) && Clocked(e, m) && Worked(e, g, m, a) && x.bare
            && SameLedger(Effect(g.book[a], c), x) && BareAfter(g.book[a], x, c)
  {
    hide Commanded, Sound, Clocked, Drift, FromStart;
    DriftsNowhere(e, g);
    IncrSends(e, g, g, a, delta, true);
    CommandIsWork(e, g, Written(g, a, IncrWrite(e, g.book[a], delta)), a);
    StillClocked(e, g);
  }

  lemma StillClocked(e: Env, g: Books)
    requires Clocked(e, g)
    ensures forall a, y :: Clocked(e, Written(g, a, y))
  {
  }

  lemma FiledTail(g: Books, c: Call, trip: Option<Option<Error>>)
    requires c.action in g.book && c.Increment? && c.applied && c.error.Some? && g.refreshedAt <= |g.calls|
    ensures var h := Filed(g, c, trip);
            && Stranded(h.calls, h.refreshedAt, c.action)
            && h.book[c.action].bare == g.book[c.action].bare && h.book[c.action].counter == g.book[c.action].counter
  {
  }

  /** With expiries switched off: a counter found with an expiry keeps it through every increment, and if
      the one PERSIST at startup has not taken effect, everything it holds is gone at that moment. */
  lemma LeftoverLapses(e: Env, db: Db, now: nat, a: string, moment: nat, delta: int)
    requires e.ttl == 0 && a in e.actions && now < moment
    requires var found := Find(db, CounterKey(e.host, a)); IsNumber(found) && found.value.expiry == Some(moment)
    ensures var x := IncrWrite(e, Opening(e, db, now).book[a], delta);
            && x.counter.value.expiry == Some(moment) && Val(x.counter) == Val(Find(db, CounterKey(e.host, a))) + delta
            && Unexpired(x.counter, moment - 1) == x.counter
            && Aged(e, x, moment, false).counter.None? && Aged(e, x, moment, false).others.seized == Val(x.counter)
  {
    hide CounterKey, HeartbeatKey, Find;
  }

  // ---------- EXPIRE or PERSIST ----------

  function RefreshWrite(e: Env, now: nat, x: Account, beat: bool): Account {
    if beat then
      x.(heartbeat := Restamped(x.heartbeat, e.ttl, now), renewals := x.renewals.(beat := true))
    else
      x.(counter := Restamped(x.counter, e.ttl, now), bare := false, renewals := x.renewals.(key := true))
  }

  function Restamped(key: Option<Entry>, ttl: nat, now: nat): Option<Entry> {
    if key.None? then None else Some(Stamp(key.value.value, ttl, now))
  }

  /** A key is missing or carries the expiry of a write no older than `floor`. */
  predicate Refreshed(key: Option<Entry>, floor: nat, until: nat, ttl: nat) {
    key.None? || Stamped(key.value, floor, until, ttl)
  }

  predicate RefreshSent(e: Env, x: Account, y: Account, beat: bool, since: nat, until: nat, applied: bool, ok: bool) {
    && SameLedger(x, y)
    && HandsOff(e, x, y)
    && (y.bare ==> x.bare && (beat || (!applied && !ok)))
    && y.renewals == (if !applied then x.renewals
                      else if beat then x.renewals.(beat := true)
                      else x.renewals.(key := true))
    && (Quiet(x, y) ==> SameValues(e, x, y) && (beat || !applied ==> y.bare == x.bare))
    && KeyDrift(x.counter, y.counter, since, until, e.ttl)
    && KeyDrift(x.heartbeat, y.heartbeat, since, until, e.ttl)
    && (ok ==> if beat then Refreshed(y.heartbeat, since, until, e.ttl) else Refreshed(y.counter, since, until, e.ttl))
  }

  lemma RefreshSends(e: Env, g: Books, m: Books, a: string, beat: bool, applied: bool, ok: bool)
    requires Drift(e, g, m) && a in g.book && Clocked(e, m) && Sound(e, m, m.book[a])
    requires beat ==> e.heartbeat
    requires ok ==> applied || (if beat then m.book[a].heartbeat.None? else m.book[a].counter.None?)
    ensures var y := if applied then RefreshWrite(e, m.now, m.book[a], beat) else m.book[a];
            && Commanded(e, g, Written(m, a, y), a)
            && Sound(e, Written(m, a, y), y) && FromStart(e, m.book[a], y)
            && RefreshSent(e, g.book[a], y, beat, g.now, m.now, applied, ok)
  {
    hide Commanded, AccountDrift, RefreshSent, Sound, RefreshWrite, FromStart;
    var x, was := g.book[a], m.book[a];
    var y := if applied then RefreshWrite(e, m.now, was, beat) else was;
    RefreshIsSound(e, m, was, beat);
    RefreshFromStart(e, m.now, was, beat);
    UnwrittenIsSound(e, m, was);
    DriftThenCommand(e, g, m, a, y);
    DriftHandsOff(e, g, m, a);
    RefreshOfAccount(e, x, was, beat, g.now, m.now, applied, ok);
  }

  /** A moment in which nothing was written is still one at which the keys were last written. */
  lemma UnwrittenIsSound(e: Env, m: Books, x: Account)
    requires Clocked(e, m) && Sound(e, m, x)
    ensures Sound(e, m.(lastWrite := m.now), x) && (x.bare ==> e.ttl > 0)
    ensures forall y, a :: Sound(e, m.(lastWrite := m.now), y) ==> Sound(e, Written(m, a, y), y)
  {
  }

  lemma RefreshFromStart(e: Env, now: nat, x: Account, beat: bool)
    requires beat ==> e.heartbeat
    ensures FromStart(e, x, x) && FromStart(e, x, RefreshWrite(e, now, x, beat))
  {
  }

  lemma RefreshIsSound(e: Env, m: Books, x: Account, beat: bool)
    requires Clocked(e, m) && Sound(e, m, x)
    ensures var y := RefreshWrite(e, m.now, x, beat);
            Later(x, y) && Quiet(x, y) && Sound(e, m.(lastWrite := m.now), y) && (!beat ==> y.heartbeat == x.heartbeat)
    ensures x.bare ==> x.counter.Some?
  {
  }

  lemma RefreshOfAccount(e: Env, x: Account, m: Account, beat: bool, since: nat, now: nat, applied: bool, ok: bool)
    requires SameLedger(x, m) && HandsOff(e, x, m) && m.renewals == x.renewals && (m.bare ==> x.bare && m.counter.Some?)
    requires (Quiet(x, m) ==> SameKeys(e, x, m))
    requires KeyDrift(x.counter, m.counter, since, now, e.ttl) && KeyDrift(x.heartbeat, m.heartbeat, since, now, e.ttl)
    requires since <= now && (beat ==> e.heartbeat)
    requires ok ==> applied || (if beat then m.heartbeat.None? else m.counter.None?)
    ensures var y := if applied then RefreshWrite(e, now, m, beat) else m;
            RefreshSent(e, x, y, beat, since, now, applied, ok)
  {
  }

  function KeyOf(x: Account, beat: bool): Option<Entry> {
    if beat then x.heartbeat else x.counter
  }

  predicate KeysRefreshed(e: Env, x: Account, floor: nat, until: nat) {
    Refreshed(x.counter, floor, until, e.ttl) && (e.heartbeat ==> Refreshed(x.heartbeat, floor, until, e.ttl))
  }

  /** Every key of the listed actions is missing or carries an expiry set after `floor`. */
  ghost predicate AllRefreshed(e: Env, g: Books, actions: seq<string>, floor: nat) {
    forall a :: a in actions && a in g.book ==> KeysRefreshed(e, g.book[a], floor, g.lastWrite)
  }

  /** No call has ended and no refresh has been completed in between. */
  predicate SameRefresh(g: Books, h: Books) {
    && h.touched == g.touched && h.freshUntil == g.freshUntil && h.refreshedAt == g.refreshedAt
    && h.answered == g.answered && h.failures == g.failures && h.outages == g.outages && h.alarms == g.alarms
  }

  lemma RestsNowhere(e: Env, g: Books)
    ensures Rested(e, g, g) && SameRefresh(g, g) && AllRefreshed(e, g, [], g.now)
  {
  }

  lemma RestsOn(e: Env, from: Books, g: Books, h: Books, a: string, beat: bool, applied: bool, ok: bool)
    requires Rested(e, from, g) && SameRefresh(from, g) && Commanded(e, g, h, a) && a in g.book && a in h.book
    requires RefreshSent(e, g.book[a], h.book[a], beat, g.now, h.lastWrite, applied, ok)
    ensures Rested(e, from, h) && SameRefresh(from, h)
    ensures from.now <= g.now
  {
    hide Onward, AccountDrift, RefreshSent, Aside;
    OnwardOn(e, from, g, h);
    forall b | b in from.book
      ensures Aside(e, from.book[b], h.book[b])
    {
      if b != a {
        DriftIsAside(e, g.book[b], h.book[b], g.now, h.lastWrite);
      } else {
        RefreshIsAside(e, g.book[b], h.book[b], beat, g.now, h.lastWrite, applied, ok);
      }
      AsideOn(e, from.book[b], g.book[b], h.book[b]);
    }
  }

  lemma DriftIsAside(e: Env, x: Account, y: Account, since: nat, until: nat)
    requires AccountDrift(e, x, y, since, until)
    ensures Aside(e, x, y)
  {
  }

  lemma RefreshIsAside(e: Env, x: Account, y: Account, beat: bool, since: nat, until: nat, applied: bool, ok: bool)
    requires RefreshSent(e, x, y, beat, since, until, applied, ok)
    ensures Aside(e, x, y)
  {
  }

  /** What a refresh did to one key survives whatever happens afterwards. */
  lemma RefreshSticks(e: Env, g: Books, h: Books, a: string, beat: bool, floor: nat, applied: bool, ok: bool)
    requires Commanded(e, g, h, a) && a in g.book && a in h.book && floor <= g.now
    requires RefreshSent(e, g.book[a], h.book[a], beat, g.now, h.lastWrite, applied, ok)
    ensures ok ==> Refreshed(KeyOf(h.book[a], beat), floor, h.lastWrite, e.ttl)
    ensures Refreshed(g.book[a].counter, floor, g.lastWrite, e.ttl) ==>
              Refreshed(h.book[a].counter, floor, h.lastWrite, e.ttl)
    ensures Refreshed(g.book[a].heartbeat, floor, g.lastWrite, e.ttl) ==>
              Refreshed(h.book[a].heartbeat, floor, h.lastWrite, e.ttl)
  {
  }

  lemma RefreshedOn(e: Env, g: Books, h: Books, actions: seq<string>, a: string, beat: bool, floor: nat,
                    applied: bool, ok: bool)
    requires AllRefreshed(e, g, actions, floor) && floor <= g.now
    requires Commanded(e, g, h, a) && a in g.book && a in h.book
    requires RefreshSent(e, g.book[a], h.book[a], beat, g.now, h.lastWrite, applied, ok)
    ensures AllRefreshed(e, h, actions, floor)
  {
    forall b | b in actions && b in h.book
      ensures KeysRefreshed(e, h.book[b], floor, h.lastWrite)
    {
      assert KeysRefreshed(e, g.book[b], floor, g.lastWrite);
      if b == a {
        RefreshSticks(e, g, h, a, beat, floor, applied, ok);
      } else {
        assert AccountDrift(e, g.book[b], h.book[b], g.now, h.lastWrite);
      }
    }
  }

  /** The books after a refresh of all keys that began at `start`. */
  function RefreshDone(e: Env, g: Books, start: nat, error: Option<Error>): Books {
    if error.None? then
      g.(touched := true, freshUntil := start + e.ttl, refreshedAt := |g.calls|, answered := g.answered + 1,
         starved := g.starved || (e.ttl > 0 && start + e.ttl <= g.now))
    else
      g.(failures := g.failures + 1, outages := g.outages + (if IsUnavailable(error) then 1 else 0),
         alarms := g.alarms + (if IsAlarm(error) then 1 else 0), missed := g.missed + 1)
  }

  /** Every counter carries an expiry, or none is wanted. */
  predicate NoneBare(g: Books) {
    forall a :: a in g.book ==> !g.book[a].bare
  }

  /** After a successful refresh no key can expire within a ttl of its start, and none is without an
      expiry that should have one. */
  lemma RefreshHolds(e: Env, from: Books, g: Books, actions: seq<string>, error: Option<Error>)
    requires Rested(e, from, g) && SameRefresh(from, g) && Clocked(e, g) && from.freshUntil <= from.now + e.ttl
    requires forall a :: a in g.book ==> Sound(e, g, g.book[a])
    requires error.None? ==> AllRefreshed(e, g, actions, from.now) && forall a :: a in g.book ==> a in actions
    requires Closed(g)
    ensures var h := RefreshDone(e, g, from.now, error);
            && Clocked(e, h) && Rested(e, from, h) && Closed(h)
            && (forall a :: a in h.book ==> Sound(e, h, h.book[a]))
            && (error.None? ==> NoneBare(h))
  {
    var h := RefreshDone(e, g, from.now, error);
    hide Aside, IsUnavailable, IsAlarm, Audited, Settled;
    forall a | a in h.book
      ensures Sound(e, h, h.book[a]) && (error.None? ==> !h.book[a].bare)
    {
      assert Sound(e, g, g.book[a]);
      assert error.None? ==> KeysRefreshed(e, g.book[a], from.now, g.lastWrite);
    }
    if error.None? {
      NoneBareAudited(g, h);
    } else {
      ClosedSame(g, h);
    }
  }

  lemma NoneBareAudited(g: Books, h: Books)
    requires Audited(g) && h.book == g.book && h.calls == g.calls && NoneBare(g)
    ensures Audited(h) && (Settled(g) ==> Settled(h))
  {
  }

  // ---------- SET NX ----------

  function NewCounter(e: Env, now: nat, x: Account): Account {
    x.(counter := Some(Stamp(Number(0), e.ttl, now)), bare := false, renewals := x.renewals.(key := true))
  }

  /** The bootstrap creates what is missing and leaves alone what exists. */
  predicate Booted(e: Env, x: Account, y: Account) {
    && SameLedger(x, y)
    && (y.bare ==> x.bare)
    && HandsOff(e, x, y)
    && (Quiet(x, y) ==>
      && y.erased == x.erased
      && (ValueOf(y.counter) == ValueOf(x.counter) || (x.counter.None? && ValueOf(y.counter) == Some(Number(0))))
      && (e.heartbeat ==>
          ValueOf(y.heartbeat) == ValueOf(x.heartbeat) || (x.heartbeat.None? && Agree(y.counter, y.heartbeat))))
  }

  function NewBeat(e: Env, now: nat, x: Account, beat: Heartbeat): Account {
    x.(heartbeat := Some(Stamp(Beat(beat), e.ttl, now)), renewals := x.renewals.(beat := true))
  }

  lemma BootsOn(e: Env, x: Account, y: Account, z: Account)
    requires Booted(e, x, y) && Booted(e, y, z)
    ensures Booted(e, x, z)
  {
  }

  /** What the bootstrap, complete or not, does to the books. */
  ghost predicate AllBooted(e: Env, g: Books, h: Books) {
    && Onward(e, g, h) && h.calls == g.calls
    && g.answered <= h.answered && g.failures <= h.failures && g.outages <= h.outages && g.alarms <= h.alarms
    && h.touched == g.touched && h.freshUntil == g.freshUntil && h.refreshedAt == g.refreshedAt
    && forall a :: a in g.book ==> Booted(e, g.book[a], h.book[a])
  }

  predicate KeysThere(e: Env, x: Account) {
    x.counter.Some? && (e.heartbeat ==> x.heartbeat.Some?)
  }

  /** Unless somebody removed them since `from`, the keys of the listed actions exist. */
  ghost predicate AllThere(e: Env, from: Books, g: Books, actions: seq<string>) {
    forall a :: a in actions && a in from.book && a in g.book && Quiet(from.book[a], g.book[a]) ==>
      KeysThere(e, g.book[a])
  }

  lemma BootsNowhere(e: Env, g: Books)
    ensures AllBooted(e, g, g) && AllThere(e, g, g, [])
  {
  }

  lemma BootsCommand(e: Env, from: Books, g: Books, h: Books, a: string, earlier: seq<string>)
    requires AllBooted(e, from, g) && SameRefresh(from, g) && AllThere(e, from, g, earlier)
    requires Commanded(e, g, h, a) && a in g.book && a in h.book && Booted(e, g.book[a], h.book[a])
    ensures AllBooted(e, from, h) && SameRefresh(from, h) && AllThere(e, from, h, earlier)
    ensures a in from.book && (Quiet(from.book[a], h.book[a]) ==> Quiet(g.book[a], h.book[a]))
  {
    hide Booted, AccountDrift, Onward, KeysThere;
    OnwardOn(e, from, g, h);
    forall b | b in from.book
      ensures Booted(e, from.book[b], h.book[b])
      ensures Quiet(from.book[b], h.book[b]) ==>
                Quiet(g.book[b], h.book[b]) && (b in earlier ==> KeysThere(e, h.book[b]))
    {
      assert Booted(e, from.book[b], g.book[b]);
      if b != a {
        DriftBoots(e, g.book[b], h.book[b], g.now, h.lastWrite);
      }
      BootsOn(e, from.book[b], g.book[b], h.book[b]);
      BootKeepsThere(e, from.book[b], g.book[b], h.book[b]);
    }
  }

  lemma BootsDrift(e: Env, from: Books, g: Books, h: Books, a: string, earlier: seq<string>)
    requires AllBooted(e, from, g) && SameRefresh(from, g) && AllThere(e, from, g, earlier)
    requires Drift(e, g, h) && a in g.book && a in h.book
    ensures AllBooted(e, from, h) && SameRefresh(from, h) && AllThere(e, from, h, earlier)
    ensures a in from.book
  {
    hide Booted, KeysThere;
    DriftBoots(e, g.book[a], h.book[a], g.now, h.lastWrite);
    DriftHandsOff(e, g, h, a);
    BootsCommand(e, from, g, h, a, earlier);
  }

  lemma DriftBoots(e: Env, x: Account, y: Account, since: nat, until: nat)
    requires AccountDrift(e, x, y, since, until)
    ensures Booted(e, x, y)
  {
  }

  lemma BootKeepsThere(e: Env, x: Account, y: Account, z: Account)
    requires Booted(e, x, y) && Booted(e, y, z)
    ensures Quiet(x, z) ==> Quiet(x, y) && Quiet(y, z) && (KeysThere(e, y) ==> KeysThere(e, z))
  {
  }

  lemma AllThereMore(e: Env, from: Books, g: Books, earlier: seq<string>, a: string)
    requires AllThere(e, from, g, earlier) && a in from.book && a in g.book
    requires Quiet(from.book[a], g.book[a]) ==> KeysThere(e, g.book[a])
    ensures AllThere(e, from, g, earlier + [a])
  {
  }

  lemma BootedClosed(e: Env, g: Books, h: Books)
    requires Closed(g) && AllBooted(e, g, h)
    ensures Closed(h)
  {
    hide SameLedger, Closed;
    forall a | a in g.book
      ensures SameLedger(g.book[a], h.book[a]) && (h.book[a].bare ==> g.book[a].bare)
    {
      assert Booted(e, g.book[a], h.book[a]);
    }
    SameClosed(g, h);
  }

  lemma RestedClosed(e: Env, g: Books, h: Books)
    requires Closed(g) && Rested(e, g, h) && h.refreshedAt == g.refreshedAt
    ensures Closed(h)
  {
    hide SameLedger, Closed;
    forall a | a in g.book
      ensures SameLedger(g.book[a], h.book[a]) && (h.book[a].bare ==> g.book[a].bare)
    {
      assert Aside(e, g.book[a], h.book[a]);
    }
    SameClosed(g, h);
  }

  lemma RestedMissed(e: Env, g: Books, h: Books)
    requires Rested(e, g, h)
    ensures g.missed <= h.missed
  {
  }

  /** The books after a round trip that is no call on one action. */
  function Tripped(g: Books, error: Option<Error>): Books {
    g.(answered := g.answered + (if error.None? then 1 else 0),
       failures := g.failures + (if error.Some? then 1 else 0),
       outages := g.outages + (if IsUnavailable(error) then 1 else 0),
       alarms := g.alarms + if IsAlarm(error) then 1 else 0)
  }

  lemma TripHolds(e: Env, from: Books, g: Books, error: Option<Error>)
    requires AllBooted(e, from, g) && Clocked(e, g) && Closed(g)
    requires forall a :: a in g.book ==> Sound(e, g, g.book[a])
    ensures var h := Tripped(g, error);
            && AllBooted(e, from, h) && Clocked(e, h) && Closed(h)
            && (forall a :: a in h.book ==> Sound(e, h, h.book[a]))
            && (forall actions :: AllThere(e, from, g, actions) ==> AllThere(e, from, h, actions))
  {
    hide Closed, Booted, IsUnavailable;
    var h := Tripped(g, error);
    forall a | a in h.book
      ensures Sound(e, h, h.book[a])
    {
      assert Sound(e, g, g.book[a]);
    }
    ClosedSame(g, h);
  }

  lemma CounterBoots(e: Env, g: Books, m: Books, a: string, applied: bool, ok: bool)
    requires Drift(e, g, m) && a in g.book && Clocked(e, m) && Sound(e, m, m.book[a])
    requires applied ==> m.book[a].counter.None?
    requires ok ==> applied || m.book[a].counter.Some?
    ensures var y := if applied then NewCounter(e, m.now, m.book[a]) else m.book[a];
            && Commanded(e, g, Written(m, a, y), a)
            && Sound(e, Written(m, a, y), y) && FromStart(e, m.book[a], y)
            && Booted(e, g.book[a], y)
            && (ok ==> y.counter.Some?)
  {
    hide Commanded, AccountDrift, Booted, Sound, NewCounter, FromStart;
    var x, was := g.book[a], m.book[a];
    var y := if applied then NewCounter(e, m.now, was) else was;
    UnwrittenIsSound(e, m, was);
    StartsHere(e, was);
    if applied {
      NewCounterIsSound(e, m, was);
    }
    DriftThenCommand(e, g, m, a, y);
    DriftHandsOff(e, g, m, a);
    CounterOfAccount(e, x, was, m.now, applied);
  }

  lemma NewCounterIsSound(e: Env, m: Books, x: Account)
    requires Clocked(e, m) && Sound(e, m, x) && x.counter.None?
    ensures var y := NewCounter(e, m.now, x);
            && Later(x, y) && Quiet(x, y) && FromStart(e, x, y) && Sound(e, m.(lastWrite := m.now), y)
            && y.heartbeat == x.heartbeat && y.counter.Some?
  {
  }

  lemma CounterOfAccount(e: Env, x: Account, m: Account, now: nat, applied: bool)
    requires SameLedger(x, m) && HandsOff(e, x, m) && (m.bare ==> x.bare) && (Quiet(x, m) ==> SameKeys(e, x, m))
    requires applied ==> m.counter.None?
    ensures Booted(e, x, if applied then NewCounter(e, now, m) else m)
  {
  }

  lemma BeatBoots(e: Env, g: Books, m: Books, a: string, beat: Heartbeat, applied: bool, ok: bool)
    requires Drift(e, g, m) && a in g.book && Clocked(e, m) && Sound(e, m, m.book[a])
    requires e.heartbeat && beat.host == e.host && beat.action == m.book[a].action
    requires Quiet(g.book[a], m.book[a]) ==> IsNumber(m.book[a].counter) && beat.lines == Val(m.book[a].counter)
    requires applied ==> m.book[a].heartbeat.None?
    requires ok ==> applied || m.book[a].heartbeat.Some?
    ensures var y := if applied then NewBeat(e, m.now, m.book[a], beat) else m.book[a];
            && Commanded(e, g, Written(m, a, y), a)
            && Sound(e, Written(m, a, y), y) && FromStart(e, m.book[a], y)
            && Booted(e, g.book[a], y)
            && (ok ==> y.heartbeat.Some?)
            && (Quiet(g.book[a], y) ==> ValueOf(y.counter) == ValueOf(g.book[a].counter))
  {
    hide Commanded, AccountDrift, Booted, Sound, NewBeat, FromStart;
    var x, was := g.book[a], m.book[a];
    var y := if applied then NewBeat(e, m.now, was, beat) else was;
    UnwrittenIsSound(e, m, was);
    StartsHere(e, was);
    if applied {
      NewBeatIsSound(e, m, was, beat);
    }
    DriftThenCommand(e, g, m, a, y);
    NewBeatOfAccount(e, x, was, m.now, beat, applied);
  }

  lemma NewBeatIsSound(e: Env, m: Books, x: Account, beat: Heartbeat)
    requires Clocked(e, m) && Sound(e, m, x) && e.heartbeat && x.heartbeat.None?
    requires beat.host == e.host && beat.action == x.action
    ensures var y := NewBeat(e, m.now, x, beat);
            && Later(x, y) && Quiet(x, y) && FromStart(e, x, y) && Sound(e, m.(lastWrite := m.now), y)
            && y.heartbeat.Some?
  {
  }

  lemma NewBeatOfAccount(e: Env, x: Account, m: Account, now: nat, beat: Heartbeat, applied: bool)
    requires e.heartbeat && SameLedger(x, m) && (m.bare ==> x.bare) && (Quiet(x, m) ==> SameKeys(e, x, m))
    requires Quiet(x, m) ==> IsNumber(m.counter) && beat.lines == Val(m.counter)
    requires applied ==> m.heartbeat.None?
    ensures var y := if applied then NewBeat(e, now, m, beat) else m;
            Booted(e, x, y) && (Quiet(x, y) ==> ValueOf(y.counter) == ValueOf(x.counter))
  {
  }

  // ---------- how a counter comes to be missing ----------

  /** Books in which an increment finds no counter do arise: on an empty server the bootstrap makes the
      counter, a refresh succeeds, and then nothing is refreshed for the length of the ttl. */
  lemma LostExpiryArises(e: Env, a: string, now: nat)
    requires e.ttl > 0 && e.ttl <= now && e.actions == {a}
    ensures var g := Neglected(e, a, now);
            && a in g.book && g.book[a].counter.None? && g.touched
            && Clocked(e, g) && Closed(g) && Mirrors(e.host, g.book, map[])
            && forall b :: b in g.book ==> Sound(e, g, g.book[b])
  {
    hide CounterKey, HeartbeatKey, Closed, Clocked, Sound, Mirrors, Commanded, Drift, Onward, Rested, Worked;
    var g0 := Opening(e, map[], 0);
    var x := NewCounter(e, 0, g0.book[a]);
    var g1 := Written(g0, a, x);
    OpeningHolds(e, map[], 0);
    OpeningEmpty(e, a);
    BootedOnce(e, a);
    RestsNowhere(e, g1);
    RefreshHolds(e, g1, g1, [a], None);
    var g2 := RefreshDone(e, g1, 0, None);
    AgedIsDrift(e, g2, now);
    DriftClosed(e, g2, AgedBooks(e, g2, now));
    NeglectedIsEmpty(e, a, now);
  }

  ghost function Neglected(e: Env, a: string, now: nat): Books
    requires a in e.actions
  {
    var g := Opening(e, map[], 0);
    AgedBooks(e, RefreshDone(e, Written(g, a, NewCounter(e, 0, g.book[a])), 0, None), now)
  }

  lemma OpeningEmpty(e: Env, a: string)
    requires e.actions == {a}
    ensures var g := Opening(e, map[], 0);
            g.book.Keys == {a} && g.book[a].counter.None? && g.book[a].heartbeat.None? && g.now == 0 && !g.touched
  {
  }

  lemma BootedOnce(e: Env, a: string)
    requires e.ttl > 0 && e.actions == {a}
    ensures var g0 := Opening(e, map[], 0);
            var g1 := Written(g0, a, NewCounter(e, 0, g0.book[a]));
            && Clocked(e, g1) && Closed(g1) && (forall b :: b in g1.book ==> Sound(e, g1, g1.book[b]))
            && AllRefreshed(e, g1, [a], 0) && g1.freshUntil <= g1.now + e.ttl && g1.now == 0 && g1.book.Keys == {a}
  {
    hide CounterKey, HeartbeatKey, Closed, Sound, Commanded, Drift, Onward, Worked;
    var g0 := Opening(e, map[], 0);
    var x := NewCounter(e, 0, g0.book[a]);
    var g1 := Written(g0, a, x);
    OpeningHolds(e, map[], 0);
    OpeningEmpty(e, a);
    DriftsNowhere(e, g0);
    CounterBoots(e, g0, g0, a, true, true);
    SoundAfter(e, g0, g1, a);
    CommandIsWork(e, g0, g1, a);
    StillClosed(e, g0, g1, a);
  }

  lemma NeglectedIsEmpty(e: Env, a: string, now: nat)
    requires e.ttl > 0 && e.ttl <= now && e.actions == {a}
    ensures var g := Neglected(e, a, now);
            a in g.book && g.book[a].counter.None? && g.touched && Mirrors(e.host, g.book, map[])
  {
    hide CounterKey, HeartbeatKey;
    OpeningEmpty(e, a);
  }
}
