/** The books the proofs keep: per action what Redis holds and what became of every increment, and
    the history of all calls the daemon made to its store. */
module Ledger {
  import opened Prelude
  import opened Keyspace
  import opened Redis

  /** The fixed surroundings of a run; `sole` says that no other process writes our keys. */
  datatype Env = Env(actions: set<string>, host: string, heartbeat: bool, ttl: nat, sole: bool)

  /** One call of the daemon to its store, with what really happened to it. */
  datatype Call =
    | Increment(action: string, delta: int, applied: bool, error: Option<Error>)
    | Report(action: string, lines: int, actual: int, applied: bool, error: Option<Error>)
    | Wipe(action: string, removed: int)      // the first SET of a reset took effect
    | Zeroing(action: string, wiped: bool, error: Option<Error>)
    | Deferral(action: string)

  /** What others and the clock did to the keys of an account. */
  datatype Others = Others(
    meddles: nat,               // writes and deletions by others, and expiries before the first refresh
    lapses: nat,                // expiries after the first successful refresh
    seized: int,                // the part of `erased` the former removed
    lost: int)                  // the part of `erased` the latter removed

  /** Whether the daemon has ever changed the expiry of a key of the account, apart by key and by how:
      with an EXPIRE, PERSIST or SET NX, or with the SET of a reset or report. */
  datatype Renewals = Renewals(key: bool, beat: bool, keySet: bool, beatSet: bool)

  /** The account of one action. */
  datatype Account = Account(
    action: string,
    counter: Option<Entry>,     // the integer key
    heartbeat: Option<Entry>,   // the monitoring key
    initial: int,               // what the counter held before the first command
    applied: int,               // increments that took effect in Redis
    erased: int,                // value removed by zeroings, expiry and other processes
    acked: int,                 // increments whose call succeeded
    dup: int,                   // increments applied by a call that failed, to be sent again
    owed: bool,                 // a scheduled reset is still to be carried out
    unsure: bool,               // the counter moved in a failed call and no call succeeded since
    zeroed: bool,               // nothing was added since the counter was last set to zero
    bare: bool,                 // an INCRBY made the key and nothing has given it an expiry yet
    others: Others,             // what happened to the keys without the daemon
    renewals: Renewals)         // which of them the daemon has given an expiry of its own

  datatype Books = Books(
    book: map<string, Account>,
    now: nat,
    touched: bool,              // a refresh of all keys has succeeded
    freshUntil: nat,            // start of the latest successful refresh, plus the ttl
    lastWrite: nat,             // latest write or refresh of one of our keys, by anyone
    starved: bool,              // the clock has reached freshUntil
    calls: seq<Call>,
    refreshedAt: nat,           // how many calls there were when the latest refresh succeeded
    answered: nat,              // calls Redis answered without an error
    failures: nat,              // calls that failed
    outages: nat,               // calls that failed because Redis was unavailable
    alarms: nat,                // calls that failed otherwise than by being cancelled
    missed: nat)                // refreshes that failed

  /** The books before the first command. */
  ghost function Opening(e: Env, db: Db, now: nat): Books {
    Books(map a | a in e.actions ::
            var counter := Find(db, CounterKey(e.host, a));
            Account(a, counter, Find(db, HeartbeatKey(e.host, a)), Val(counter),
                    0, 0, 0, 0, false, false, false, false,
                    Others(0, 0, 0, 0), Renewals(false, false, false, false)),
          now, false, 0, 0, false, [], 0, 0, 0, 0, 0, 0)
  }

  lemma OpeningAt(e: Env, db: Db, now: nat, a: string)
    requires a in e.actions
    ensures var g := Opening(e, db, now);
            a in g.book && g.book[a].initial == Val(Find(db, CounterKey(e.host, a)))
  {
  }

  /** Every monitoring value is absent or reports what its counter holds. */
  predicate InAgreement(book: map<string, Account>) {
    forall a :: a in book ==> book[a].heartbeat.None? || Agree(book[a].counter, book[a].heartbeat)
  }

  // ---------- what holds of one account at every moment ----------

  /** Once the keys have been refreshed, a key either carries an expiry between the guaranteed and
      the latest possible moment, or was made by an INCRBY whose EXPIRE has not taken effect. */
  predicate Timed(e: Env, g: Books, key: Option<Entry>, bare: bool) {
    g.touched && key.Some? ==>
      if e.ttl == 0 then key.value.expiry.None?
      else if key.value.expiry.None? then bare
      else g.freshUntil <= key.value.expiry.value <= g.lastWrite + e.ttl
  }

  /** The value of a counter and what was erased from it account for everything added to it.  A counter
      that was not negative at the start never is, and nobody else ever adds to it. */
  predicate Balanced(x: Account) {
    && x.initial + x.applied == Val(x.counter) + x.erased
    && 0 <= x.acked && 0 <= x.dup
    && (x.zeroed ==> Val(x.counter) == 0)
    && (x.bare ==> x.counter.Some? && x.counter.value.expiry.None?)
    && (0 <= x.initial ==> 0 <= Val(x.counter) && 0 <= x.others.seized && 0 <= x.others.lost)
  }

  /** What holds of the clock fields at every moment: the clock cannot pass the guaranteed moment
      unnoticed. */
  predicate Clocked(e: Env, g: Books) {
    && g.lastWrite <= g.now
    && g.freshUntil <= g.now + e.ttl
    && (g.touched && e.ttl > 0 && g.freshUntil <= g.now ==> g.starved)
  }

  /** No key of the account has expired, and no value was lost that way, unless some refresh came too
      late. */
  predicate Kept(g: Books, x: Account) {
    !g.starved ==> x.others.lapses == 0 && x.others.lost == 0
  }

  predicate Sound(e: Env, g: Books, x: Account) {
    && Balanced(x)
    && Kept(g, x)
    && (x.others.meddles == 0 ==> x.others.seized == 0) && (x.others.lapses == 0 ==> x.others.lost == 0)
    && (x.bare ==> e.ttl > 0)
    && Timed(e, g, x.counter, x.bare)
    && (e.heartbeat ==> Timed(e, g, x.heartbeat, false))
  }

  // ---------- what others may do between two commands ----------

  /** The key carries the expiry of a write made between two moments. */
  predicate Stamped(key: Entry, since: nat, until: nat, ttl: nat) {
    if ttl == 0 then key.expiry.None? else key.expiry.Some? && since + ttl <= key.expiry.value <= until + ttl
  }

  predicate KeyDrift(o: Option<Entry>, n: Option<Entry>, since: nat, until: nat, ttl: nat) {
    n == o || n.None? || Stamped(n.value, since, until, ttl)
  }

  /** What others did to an account is never taken back, and nothing is booked as their doing without
      them. */
  predicate Later(x: Account, y: Account) {
    && x.others.meddles <= y.others.meddles && x.others.lapses <= y.others.lapses
    && (y.others.meddles == x.others.meddles ==> y.others.seized == x.others.seized)
    && (y.others.lapses == x.others.lapses ==> y.others.lost == x.others.lost)
  }

  /** What the daemon's own resets removed. */
  function Own(x: Account): int {
    x.erased - x.others.seized - x.others.lost
  }

  /** What others and expiries removed. */
  function TakenAway(x: Account): int {
    x.others.seized + x.others.lost
  }

  /** Nobody else wrote or deleted the keys of the account in between, and none of them expired. */
  predicate Quiet(x: Account, y: Account) {
    x.others.meddles == y.others.meddles && x.others.lapses == y.others.lapses
  }

  /** The same of the whole run so far. */
  predicate Alone(x: Account) {
    x.others.meddles == 0 && x.others.lapses == 0
  }

  /** Everything the environment cannot touch: also what our resets removed, and whether a reset or
      report ever wrote a key. */
  predicate SameLedger(x: Account, y: Account) {
    && y == x.(counter := y.counter, heartbeat := y.heartbeat, erased := y.erased, bare := y.bare,
               others := y.others, renewals := y.renewals)
    && Later(x, y) && Own(y) == Own(x)
    && y.renewals.keySet == x.renewals.keySet && y.renewals.beatSet == x.renewals.beatSet
  }

  /** With the monitoring value switched off its key is at most lost, never written. */
  predicate HandsOff(e: Env, x: Account, y: Account) {
    !e.heartbeat ==> y.heartbeat == x.heartbeat || y.heartbeat.None?
  }

  predicate SameExpiry(o: Option<Entry>, n: Option<Entry>) {
    o.Some? && n.Some? && n.value.expiry == o.value.expiry
  }

  /** What may become of the expiry of a key while expiries are switched off: one that is there now was
      there before and the daemon has not renewed the key; and a key that nobody disturbed and the daemon
      has not renewed keeps what it had. */
  predicate KeyStep(o: Option<Entry>, n: Option<Entry>, early: bool, late: bool, quiet: bool) {
    && (early ==> late)
    && (n.Some? && n.value.expiry.Some? ==> SameExpiry(o, n) && early == late)
    && (quiet && !late && o.Some? ==> SameExpiry(o, n))
  }

  predicate KeyRenewed(x: Account) {
    x.renewals.key || x.renewals.keySet
  }

  predicate BeatRenewed(x: Account) {
    x.renewals.beat || x.renewals.beatSet
  }

  predicate IsBeatOf(e: Env, a: string, key: Option<Entry>) {
    key.Some? && key.value.value.Beat? && key.value.value.beat.host == e.host && key.value.value.beat.action == a
  }

  /** A monitoring value is what it was, or gone, or one about this host and this action. */
  predicate Named(e: Env, x: Account, y: Account) {
    && y.action == x.action
    && (y.heartbeat.None? || ValueOf(y.heartbeat) == ValueOf(x.heartbeat) || IsBeatOf(e, x.action, y.heartbeat))
  }

  /** What the account at the start still says about a later one. */
  predicate FromStart(e: Env, x: Account, y: Account) {
    && y.initial == x.initial && HandsOff(e, x, y) && Later(x, y) && Named(e, x, y)
    && (e.ttl == 0 ==> KeyStep(x.counter, y.counter, KeyRenewed(x), KeyRenewed(y), Quiet(x, y)))
    && (e.ttl == 0 && e.heartbeat ==>
          KeyStep(x.heartbeat, y.heartbeat, BeatRenewed(x), BeatRenewed(y), Quiet(x, y)))
  }

  /** The same for all accounts. */
  ghost predicate StartsFrom(e: Env, o: map<string, Account>, book: map<string, Account>) {
    forall a :: a in book ==> a in o && o[a].action == a && Pristine(o[a]) && FromStart(e, o[a], book[a])
  }

  /** Nothing has happened to the account yet. */
  predicate Pristine(o: Account) {
    o.others == Others(0, 0, 0, 0) && o.renewals == Renewals(false, false, false, false)
  }

  lemma DriftStartsFrom(e: Env, o: map<string, Account>, g: Books, h: Books)
    requires StartsFrom(e, o, g.book) && Drift(e, g, h)
    ensures StartsFrom(e, o, h.book)
  {
    hide FromStart, AccountDrift;
    OnwardKeys(e, g, h);
    forall a | a in h.book
      ensures a in o && o[a].action == a && Pristine(o[a]) && FromStart(e, o[a], h.book[a])
    {
      DriftFromStart(e, g.book[a], h.book[a], g.now, h.lastWrite);
      FromStartOn(e, o[a], g.book[a], h.book[a]);
    }
  }

  lemma WrittenStartsFrom(e: Env, o: map<string, Account>, book: map<string, Account>, a: string, y: Account)
    requires StartsFrom(e, o, book) && a in book && FromStart(e, book[a], y)
    ensures StartsFrom(e, o, book[a := y])
  {
    hide FromStart;
    FromStartOn(e, o[a], book[a], y);
  }

  lemma FiledStartsFrom(e: Env, o: map<string, Account>, g: Books, c: Call, trip: Option<Option<Error>>)
    requires StartsFrom(e, o, g.book) && c.action in g.book
    ensures StartsFrom(e, o, Filed(g, c, trip).book)
  {
    hide FromStart;
    PostedFromStart(e, g.book[c.action], c);
    WrittenStartsFrom(e, o, g.book, c.action, Posted(g.book[c.action], c));
  }

  lemma PostedFromStart(e: Env, x: Account, c: Call)
    ensures FromStart(e, x, Posted(x, c))
  {
  }

  lemma FromStartOn(e: Env, x: Account, y: Account, z: Account)
    requires FromStart(e, x, y) && FromStart(e, y, z)
    ensures FromStart(e, x, z)
  {
  }

  lemma DriftFromStart(e: Env, x: Account, y: Account, since: nat, until: nat)
    requires AccountDrift(e, x, y, since, until)
    ensures FromStart(e, x, y)
  {
  }

  predicate SameKeys(e: Env, x: Account, y: Account) {
    && y.counter == x.counter && y.erased == x.erased && y.bare == x.bare
    && (e.heartbeat ==> y.heartbeat == x.heartbeat)
  }

  predicate SameValues(e: Env, x: Account, y: Account) {
    && ValueOf(y.counter) == ValueOf(x.counter) && y.erased == x.erased
    && (e.heartbeat ==> ValueOf(y.heartbeat) == ValueOf(x.heartbeat))
  }

  /** Others set a counter to zero, delete it, or it expires.  They never add to it: what it loses is
      booked as their doing, so as long as it is not negative that never goes down. */
  predicate OnlyTaken(x: Account, y: Account) {
    && (ValueOf(y.counter) == ValueOf(x.counter) || y.counter.None? || ValueOf(y.counter) == Some(Number(0)))
    && y.erased == x.erased + Val(x.counter) - Val(y.counter)
    && (0 <= Val(x.counter) ==> x.others.seized <= y.others.seized && x.others.lost <= y.others.lost)
  }

  predicate AccountDrift(e: Env, x: Account, y: Account, since: nat, until: nat) {
    && SameLedger(x, y)
    && (y.bare ==> x.bare)
    && y.renewals == x.renewals
    && OnlyTaken(x, y)
    && HandsOff(e, x, y) && Named(e, x, y)
    && KeyDrift(x.counter, y.counter, since, until, e.ttl)
    && KeyDrift(x.heartbeat, y.heartbeat, since, until, e.ttl)
    && (Quiet(x, y) ==> SameKeys(e, x, y))
  }

  /** What an account of an action not worked on may go through during a call. */
  predicate Aside(e: Env, x: Account, y: Account) {
    && SameLedger(x, y)
    && (y.bare ==> x.bare)
    && HandsOff(e, x, y)
    && (Quiet(x, y) ==> SameValues(e, x, y))
  }

  /** The clock reached the moment up to which the keys were guaranteed to live: a ttl after the start
      of the latest successful refresh, or after the beginning if there had been none. */
  predicate Late(e: Env, g: Books, h: Books) {
    e.ttl > 0 && (if g.touched then g.freshUntil else g.now + e.ttl) <= h.now
  }

  /** Time only moves on, the guarantee given to the keys is only extended, and it is missed only when
      the clock reached its end. */
  predicate Onward(e: Env, g: Books, h: Books) {
    && g.now <= h.now
    && g.lastWrite <= h.lastWrite && g.missed <= h.missed && |g.calls| <= |h.calls|
    && (g.touched ==> h.touched && g.freshUntil <= h.freshUntil)
    && (h.touched && !g.touched ==> g.now + e.ttl <= h.freshUntil)
    && (g.starved ==> h.starved)
    && (h.starved ==> g.starved || Late(e, g, h))
    && h.book.Keys == g.book.Keys
    && forall a :: a in g.book ==>
      Later(g.book[a], h.book[a]) && (e.sole && g.touched ==> h.book[a].others.meddles == g.book[a].others.meddles)
  }

  /** While the daemon does nothing only time, other processes and the keys' own expiry are at work. */
  predicate Drift(e: Env, g: Books, h: Books) {
    && Onward(e, g, h)
    && h == g.(book := h.book, now := h.now, lastWrite := h.lastWrite, starved := h.starved)
    && forall a :: a in g.book ==> AccountDrift(e, g.book[a], h.book[a], g.now, h.lastWrite)
  }

  lemma DriftsOn(e: Env, g: Books, h: Books, i: Books)
    requires Drift(e, g, h) && Drift(e, h, i)
    ensures Drift(e, g, i)
  {
    hide Onward, AccountDrift;
    OnwardOn(e, g, h, i);
    forall a | a in g.book
      ensures AccountDrift(e, g.book[a], i.book[a], g.now, i.lastWrite)
    {
      AccountDriftsOn(e, g, h, i, a);
    }
  }

  lemma OnwardOn(e: Env, g: Books, h: Books, i: Books)
    requires Onward(e, g, h) && Onward(e, h, i)
    ensures Onward(e, g, i) && g.now <= h.now && h.lastWrite <= i.lastWrite && h.book.Keys == g.book.Keys == i.book.Keys
  {
  }

  lemma OnwardKeys(e: Env, g: Books, h: Books)
    requires Onward(e, g, h)
    ensures h.book.Keys == g.book.Keys && g.missed <= h.missed
  {
  }

  lemma AccountDriftsOn(e: Env, g: Books, h: Books, i: Books, a: string)
    requires a in g.book && a in h.book && a in i.book && g.now <= h.now && h.lastWrite <= i.lastWrite
    requires AccountDrift(e, g.book[a], h.book[a], g.now, h.lastWrite)
    requires AccountDrift(e, h.book[a], i.book[a], h.now, i.lastWrite)
    ensures AccountDrift(e, g.book[a], i.book[a], g.now, i.lastWrite)
  {
  }

  lemma DriftsNowhere(e: Env, g: Books)
    ensures Drift(e, g, g)
  {
  }

  /** One account moves on, together with the books it is kept in. */
  lemma SoundAfter(e: Env, g: Books, h: Books, a: string)
    requires a in g.book && a in h.book && h == g.(book := g.book[a := h.book[a]], lastWrite := h.lastWrite)
    requires g.lastWrite <= h.lastWrite
    requires forall b :: b in g.book ==> Sound(e, g, g.book[b])
    requires Sound(e, h, h.book[a])
    ensures forall b :: b in h.book ==> Sound(e, h, h.book[b])
  {
    forall b | b in h.book
      ensures Sound(e, h, h.book[b])
    {
      if b != a {
        assert Sound(e, g, g.book[b]) && h.book[b] == g.book[b];
      }
    }
  }

  /** What the books go through while the daemon sends one command about action `a`. */
  predicate Commanded(e: Env, g: Books, h: Books, a: string) {
    && Onward(e, g, h)
    && h == g.(book := h.book, now := h.now, lastWrite := h.lastWrite, starved := h.starved)
    && (forall b :: b in g.book && b != a ==> AccountDrift(e, g.book[b], h.book[b], g.now, h.lastWrite))
    && (a in g.book ==> HandsOff(e, g.book[a], h.book[a]))
  }

  /** With nobody else around the keys do not change between two commands. */
  lemma DriftValues(e: Env, g: Books, m: Books, a: string)
    requires Drift(e, g, m) && a in g.book
    ensures Later(g.book[a], m.book[a])
    ensures Quiet(g.book[a], m.book[a]) ==> SameKeys(e, g.book[a], m.book[a])
  {
  }

  lemma DriftLedger(e: Env, g: Books, m: Books)
    requires Drift(e, g, m)
    ensures m.book.Keys == g.book.Keys && forall a :: a in g.book ==> SameLedger(g.book[a], m.book[a])
  {
    forall a | a in g.book
      ensures SameLedger(g.book[a], m.book[a])
    {
      assert AccountDrift(e, g.book[a], m.book[a], g.now, m.lastWrite);
    }
  }

  lemma DriftClosed(e: Env, g: Books, m: Books)
    requires Drift(e, g, m) && Closed(g)
    ensures Closed(m)
  {
    hide SameLedger, Closed;
    forall a | a in g.book
      ensures SameLedger(g.book[a], m.book[a]) && (m.book[a].bare ==> g.book[a].bare)
    {
      assert AccountDrift(e, g.book[a], m.book[a], g.now, m.lastWrite);
    }
    SameClosed(g, m);
  }

  /** Whatever leaves the accounts and the history alone leaves them in agreement. */
  lemma SameClosed(g: Books, h: Books)
    requires Closed(g) && h.calls == g.calls && h.refreshedAt == g.refreshedAt && h.book.Keys == g.book.Keys
    requires forall a :: a in g.book ==> SameLedger(g.book[a], h.book[a]) && (h.book[a].bare ==> g.book[a].bare)
    ensures Closed(h)
  {
    hide SameLedger, Recorded;
    forall a | a in g.book
      ensures Recorded(h.book[a], h.calls, h.refreshedAt, a) && h.book[a].applied == h.book[a].acked + h.book[a].dup
    {
      RecordedSame(g.book[a], h.book[a], g.calls, g.refreshedAt, a);
    }
  }

  lemma RecordedSame(x: Account, y: Account, h: seq<Call>, since: nat, a: string)
    requires Recorded(x, h, since, a) && SameLedger(x, y) && (y.bare ==> x.bare)
    ensures Recorded(y, h, since, a) && y.applied == x.applied && y.acked == x.acked && y.dup == x.dup
  {
  }

  lemma DriftRests(e: Env, g: Books, m: Books)
    requires Drift(e, g, m)
    ensures Rested(e, g, m)
  {
    forall a | a in g.book
      ensures Aside(e, g.book[a], m.book[a])
    {
      assert AccountDrift(e, g.book[a], m.book[a], g.now, m.lastWrite);
    }
  }

  lemma DriftHandsOff(e: Env, g: Books, m: Books, a: string)
    requires Drift(e, g, m) && a in g.book
    ensures HandsOff(e, g.book[a], m.book[a])
  {
  }

  /** Others run, then the command changes the account of `a`. */
  lemma DriftThenCommand(e: Env, g: Books, m: Books, a: string, y: Account)
    requires Drift(e, g, m) && a in g.book && m.lastWrite <= m.now
    requires (e.heartbeat || y.heartbeat == m.book[a].heartbeat) && Later(m.book[a], y) && Quiet(m.book[a], y)
    ensures Commanded(e, g, Written(m, a, y), a)
    ensures SameLedger(g.book[a], m.book[a])
    ensures KeyDrift(g.book[a].counter, m.book[a].counter, g.now, m.now, e.ttl)
    ensures KeyDrift(g.book[a].heartbeat, m.book[a].heartbeat, g.now, m.now, e.ttl)
    ensures Quiet(g.book[a], m.book[a]) ==> SameKeys(e, g.book[a], m.book[a])
    ensures m.book[a].bare ==> g.book[a].bare
    ensures m.book[a].renewals == g.book[a].renewals
  {
    hide AccountDrift, HandsOff, KeyDrift, SameLedger, SameKeys;
    DriftedAccount(e, g.book[a], m.book[a], g.now, m.lastWrite);
    forall b | b in g.book && b != a
      ensures AccountDrift(e, g.book[b], m.book[b], g.now, m.now)
    {
      DriftsLater(e, g.book[b], m.book[b], g.now, m.lastWrite, m.now);
    }
    DriftsLater(e, g.book[a], m.book[a], g.now, m.lastWrite, m.now);
    DriftedAccount(e, g.book[a], m.book[a], g.now, m.now);
    HandsStayOff(e, g.book[a], m.book[a], y);
  }

  lemma DriftedAccount(e: Env, x: Account, y: Account, since: nat, until: nat)
    requires AccountDrift(e, x, y, since, until)
    ensures SameLedger(x, y) && HandsOff(e, x, y) && (y.bare ==> x.bare) && y.renewals == x.renewals
    ensures KeyDrift(x.counter, y.counter, since, until, e.ttl)
    ensures KeyDrift(x.heartbeat, y.heartbeat, since, until, e.ttl)
    ensures Quiet(x, y) ==> SameKeys(e, x, y)
  {
  }

  lemma DriftsLater(e: Env, x: Account, y: Account, since: nat, until: nat, later: nat)
    requires AccountDrift(e, x, y, since, until) && until <= later
    ensures AccountDrift(e, x, y, since, later)
  {
  }

  lemma HandsStayOff(e: Env, x: Account, y: Account, z: Account)
    requires HandsOff(e, x, y) && (e.heartbeat || z.heartbeat == y.heartbeat)
    ensures HandsOff(e, x, z)
  {
  }

  /** The books after a command of the daemon was carried out on a key of action `a`. */
  function Written(g: Books, a: string, y: Account): Books {
    g.(book := g.book[a := y], lastWrite := g.now)
  }

  /** Another process zeroed the counter or deleted it. */
  function CounterTaken(x: Account, n: Option<Entry>): Account {
    x.(counter := n, erased := x.erased + Val(x.counter), bare := false,
       others := x.others.(meddles := x.others.meddles + 1, seized := x.others.seized + Val(x.counter)))
  }

  /** Another process wrote or deleted the monitoring value. */
  function BeatTaken(x: Account, n: Option<Entry>): Account {
    x.(heartbeat := n, others := x.others.(meddles := x.others.meddles + 1))
  }

  /** The books after another process wrote or deleted a key of action `a`. */
  function Meddled(g: Books, a: string, y: Account): Books {
    g.(book := g.book[a := y], lastWrite := g.now)
  }

  /** When others have worked on one account, the books have drifted. */
  lemma OneTaken(e: Env, g: Books, a: string, y: Account)
    requires a in g.book && Clocked(e, g) && !e.sole && AccountDrift(e, g.book[a], y, g.now, g.now)
    requires Later(g.book[a], y)
    ensures Drift(e, g, Meddled(g, a, y))
  {
    hide AccountDrift;
    forall b | b in g.book && b != a
      ensures AccountDrift(e, g.book[b], g.book[b], g.now, g.now)
    {
      AccountStays(e, g.book[b], g.now);
    }
  }

  predicate JustWritten(g: Books, h: Books) {
    && h.touched == g.touched && h.freshUntil == g.freshUntil && h.starved == g.starved
    && h.lastWrite == g.now
  }

  lemma AccountStays(e: Env, x: Account, now: nat)
    ensures AccountDrift(e, x, x, now, now)
  {
  }

  lemma CounterTakenWell(e: Env, g: Books, h: Books, x: Account, n: Option<Entry>)
    requires Sound(e, g, x) && Clocked(e, g) && JustWritten(g, h)
    requires (n.None? || n.value == Stamp(Number(0), e.ttl, g.now))
    ensures var y := CounterTaken(x, n);
            AccountDrift(e, x, y, g.now, g.now) && Later(x, y) && Sound(e, h, y)
  {
  }

  lemma BeatTakenWell(e: Env, g: Books, h: Books, x: Account, n: Option<Entry>)
    requires Sound(e, g, x) && Clocked(e, g) && JustWritten(g, h)
    requires n.None? || (e.heartbeat && IsBeatOf(e, x.action, n) && n.value == Stamp(n.value.value, e.ttl, g.now))
    ensures var y := BeatTaken(x, n);
            AccountDrift(e, x, y, g.now, g.now) && Later(x, y) && Sound(e, h, y)
  {
  }

  lemma MeddledCounter(e: Env, g: Books, a: string, n: Option<Entry>)
    requires a in g.book && Sound(e, g, g.book[a]) && Clocked(e, g) && !e.sole
    requires n.None? || n.value == Stamp(Number(0), e.ttl, g.now)
    ensures var y := CounterTaken(g.book[a], n);
            Sound(e, Meddled(g, a, y), y) && Drift(e, g, Meddled(g, a, y)) && FromStart(e, g.book[a], y)
  {
    hide AccountDrift, Onward, Sound, Drift, FromStart;
    CounterTakenWell(e, g, Meddled(g, a, CounterTaken(g.book[a], n)), g.book[a], n);
    DriftFromStart(e, g.book[a], CounterTaken(g.book[a], n), g.now, g.now);
    OneTaken(e, g, a, CounterTaken(g.book[a], n));
  }

  lemma MeddledBeat(e: Env, g: Books, a: string, n: Option<Entry>)
    requires a in g.book && Sound(e, g, g.book[a]) && Clocked(e, g) && !e.sole
    requires n.None? ||
             (e.heartbeat && IsBeatOf(e, g.book[a].action, n) && n.value == Stamp(n.value.value, e.ttl, g.now))
    ensures var y := BeatTaken(g.book[a], n);
            Sound(e, Meddled(g, a, y), y) && Drift(e, g, Meddled(g, a, y)) && FromStart(e, g.book[a], y)
  {
    hide AccountDrift, Onward, Sound, Drift, FromStart;
    BeatTakenWell(e, g, Meddled(g, a, BeatTaken(g.book[a], n)), g.book[a], n);
    DriftFromStart(e, g.book[a], BeatTaken(g.book[a], n), g.now, g.now);
    OneTaken(e, g, a, BeatTaken(g.book[a], n));
  }

  // ---------- time ----------

  /** One of the keys the daemon maintains for the account expires before `now`. */
  predicate Lapses(e: Env, x: Account, now: nat) {
    || Unexpired(x.counter, now) != x.counter
    || (e.heartbeat && Unexpired(x.heartbeat, now) != x.heartbeat)
  }

  function Aging(o: Others, lapse: bool, gone: int, touched: bool): Others {
    var n := if lapse then 1 else 0;
    if touched then o.(lapses := o.lapses + n, lost := o.lost + gone)
    else o.(meddles := o.meddles + n, seized := o.seized + gone)
  }

  /** An account after the clock has moved to `now`.  Expiries are the daemon's business once a refresh
      has succeeded; what expires before that was left behind by somebody else. */
  function Aged(e: Env, x: Account, now: nat, touched: bool): Account {
    var lapse := Lapses(e, x, now);
    var gone := Val(x.counter) - Val(Unexpired(x.counter, now));
    x.(counter := Unexpired(x.counter, now),
       heartbeat := Unexpired(x.heartbeat, now),
       erased := x.erased + gone,
       others := Aging(x.others, lapse, gone, touched))
  }

  ghost function AgedBooks(e: Env, g: Books, now: nat): Books {
    g.(book := map a | a in g.book :: Aged(e, g.book[a], now, g.touched),
       now := now,
       starved := g.starved || (g.touched && e.ttl > 0 && g.freshUntil <= now))
  }

  /** A key the daemon keeps refreshing does not expire before the guaranteed moment. */
  lemma NoLapseWhileFresh(e: Env, g: Books, x: Account, now: nat)
    requires g.touched && Sound(e, g, x) && Lapses(e, x, now)
    ensures e.ttl > 0 && g.freshUntil <= now
  {
  }

  /** Once operations have stopped for a full ttl, every key is gone, except a counter made by an
      INCRBY whose EXPIRE never took effect: that one stays for ever. */
  lemma GoneAfterTtl(e: Env, g: Books, x: Account, now: nat)
    requires g.touched && e.ttl > 0 && Sound(e, g, x) && g.lastWrite + e.ttl <= now
    ensures Unexpired(x.counter, now).Some? <==> x.bare
    ensures x.bare ==> forall later :: now <= later ==> Unexpired(x.counter, later) == x.counter
    ensures e.heartbeat ==> Unexpired(x.heartbeat, now).None?
  {
  }

  lemma OpeningHolds(e: Env, db: Db, now: nat)
    ensures var g := Opening(e, db, now);
            && g.book.Keys == e.actions && Clocked(e, g) && Closed(g)
            && (forall a :: a in g.book ==> Sound(e, g, g.book[a]) && g.book[a].acked == 0)
            && Mirrors(e.host, g.book, db)
  {
    hide CounterKey, HeartbeatKey, Sound, Mirrors;
    var g := Opening(e, db, now);
    forall a | a in g.book
      ensures Sound(e, g, g.book[a])
    {
      OpeningSound(e, db, now, a);
    }
    OpeningMirrors(e, db, now);
  }

  lemma OpeningSound(e: Env, db: Db, now: nat, a: string)
    requires a in e.actions
    ensures var g := Opening(e, db, now); Sound(e, g, g.book[a])
  {
    hide CounterKey, HeartbeatKey, Find, Val;
  }

  lemma OpeningStarts(e: Env, db: Db, now: nat)
    ensures var g := Opening(e, db, now); StartsFrom(e, g.book, g.book)
  {
    hide CounterKey, HeartbeatKey, Find, Val;
  }

  lemma OpeningMirrors(e: Env, db: Db, now: nat)
    ensures Mirrors(e.host, Opening(e, db, now).book, db)
  {
    hide CounterKey, HeartbeatKey, Find, Val;
  }

  lemma AgedIsDrift(e: Env, g: Books, now: nat)
    requires g.now <= now && Clocked(e, g)
    requires forall a :: a in g.book ==> Sound(e, g, g.book[a])
    ensures var h := AgedBooks(e, g, now);
            && Drift(e, g, h) && Clocked(e, h)
            && (forall a :: a in h.book ==> Sound(e, h, h.book[a]))
  {
    hide Sound, AccountDrift, Aged;
    var h := AgedBooks(e, g, now);
    forall a | a in h.book
      ensures Sound(e, h, h.book[a]) && AccountDrift(e, g.book[a], h.book[a], g.now, h.lastWrite)
      ensures Later(g.book[a], h.book[a]) && (g.touched ==> h.book[a].others.meddles == g.book[a].others.meddles)
    {
      AgedAccount(e, g, h, g.book[a], now);
    }
  }

  lemma AgedKeys(e: Env, g: Books, now: nat)
    ensures var h := AgedBooks(e, g, now);
            && h.now == now && h.book.Keys == g.book.Keys
            && forall a :: a in g.book ==>
                 && h.book[a].counter == Unexpired(g.book[a].counter, now)
                 && h.book[a].heartbeat == Unexpired(g.book[a].heartbeat, now)
                 && h.book[a].acked == g.book[a].acked
  {
  }

  lemma AgedAccount(e: Env, g: Books, h: Books, x: Account, now: nat)
    requires Sound(e, g, x)
    requires h == AgedBooks(e, g, now)
    ensures var y := Aged(e, x, now, g.touched);
            Sound(e, h, y) && AccountDrift(e, x, y, g.now, h.lastWrite) && Later(x, y)
    ensures g.touched ==> Aged(e, x, now, g.touched).others.meddles == x.others.meddles
  {
    if g.touched && Lapses(e, x, now) {
      NoLapseWhileFresh(e, g, x, now);
    }
  }

  // ---------- the flat keyspace ----------

  /** The accounts mirror what the flat keyspace holds. */
  predicate Mirrors(host: string, book: map<string, Account>, db: Db) {
    forall a {:trigger CounterKey(host, a)} {:trigger HeartbeatKey(host, a)} :: a in book ==>
      && book[a].counter == Find(db, CounterKey(host, a))
      && book[a].heartbeat == Find(db, HeartbeatKey(host, a))
  }

  /** The keyspace after a key was written or deleted. */
  function Put(db: Db, key: string, entry: Option<Entry>): Db {
    if entry.Some? then db[key := entry.value] else db - {key}
  }

  lemma MirrorsAt(host: string, book: map<string, Account>, db: Db, a: string)
    requires Mirrors(host, book, db) && a in book
    ensures book[a].counter == Find(db, CounterKey(host, a))
    ensures book[a].heartbeat == Find(db, HeartbeatKey(host, a))
  {
  }

  lemma FoundThere(db: Db, key: string)
    ensures key in db <==> Find(db, key).Some?
    ensures key in db ==> Find(db, key) == Some(db[key])
  {
  }

  /** A write to a key of one action shows in the account of that action and in no other. */
  lemma CounterWritten(host: string, book: map<string, Account>, db: Db, a: string, entry: Option<Entry>, x: Account)
    requires Mirrors(host, book, db) && a in book
    requires x.counter == entry && x.heartbeat == book[a].heartbeat
    ensures Mirrors(host, book[a := x], Put(db, CounterKey(host, a), entry))
    ensures entry == book[a].counter ==> Mirrors(host, book[a := x], db)
  {
    hide CounterKey, HeartbeatKey;
    KeysApart(host);
  }

  lemma HeartbeatWritten(host: string, book: map<string, Account>, db: Db, a: string, entry: Option<Entry>, x: Account)
    requires Mirrors(host, book, db) && a in book
    requires x.heartbeat == entry && x.counter == book[a].counter
    ensures Mirrors(host, book[a := x], Put(db, HeartbeatKey(host, a), entry))
    ensures entry == book[a].heartbeat ==> Mirrors(host, book[a := x], db)
  {
    hide CounterKey, HeartbeatKey;
    KeysApart(host);
  }

  // ---------- the history of calls ----------

  /** Increments acknowledged by a call on `a`: the deltas whose Incr returned success. */
  function Acked(h: seq<Call>, a: string): int {
    if h == [] then 0
    else
      var c := h[|h| - 1];
      Acked(h[..|h| - 1], a) + if c.Increment? && c.action == a && c.error.None? then c.delta else 0
  }

  /** Increments that took effect although the call returned an error. */
  function Dup(h: seq<Call>, a: string): int {
    if h == [] then 0
    else
      var c := h[|h| - 1];
      Dup(h[..|h| - 1], a) + if c.Increment? && c.action == a && c.applied && c.error.Some? then c.delta else 0
  }

  /** What the resets of `a` removed from its counter. */
  function Removed(h: seq<Call>, a: string): int {
    if h == [] then 0
    else
      var c := h[|h| - 1];
      Removed(h[..|h| - 1], a) + if c.Wipe? && c.action == a then c.removed else 0
  }

  /** A reset has set the counter of `a`, or a report its monitoring value. */
  predicate Sets(c: Call, a: string, beat: bool) {
    c.action == a && if beat then c.Report? && c.applied else c.Wipe?
  }

  predicate EverSet(h: seq<Call>, a: string, beat: bool) {
    exists i :: 0 <= i < |h| && Sets(h[i], a, beat)
  }

  lemma EverSetPost(h: seq<Call>, c: Call, a: string, beat: bool)
    ensures EverSet(h + [c], a, beat) <==> EverSet(h, a, beat) || Sets(c, a, beat)
  {
    var t := h + [c];
    assert t[|h|] == c;
    if EverSet(h, a, beat) {
      var i :| 0 <= i < |h| && Sets(h[i], a, beat);
      assert Sets(t[i], a, beat);
    }
  }

  /** What the counter of `a` holds after the calls if it held `v` before them and nobody else takes
      anything away. */
  function Held(v: int, h: seq<Call>, a: string): int {
    v + Acked(h, a) + Dup(h, a) - Removed(h, a)
  }

  /** Every reset of `a` removed exactly what the calls before it had left in the counter. */
  predicate Exact(v: int, h: seq<Call>, a: string) {
    forall i :: 0 <= i < |h| && h[i].Wipe? && h[i].action == a ==> h[i].removed == Held(v, h[..i], a)
  }

  lemma ExactPost(v: int, h: seq<Call>, c: Call, a: string)
    requires Exact(v, h, a) && (c.Wipe? && c.action == a ==> c.removed == Held(v, h, a))
    ensures Exact(v, h + [c], a)
  {
    var t := h + [c];
    forall i | 0 <= i < |t| && t[i].Wipe? && t[i].action == a
      ensures t[i].removed == Held(v, t[..i], a)
    {
      assert t[..i] == h[..i];
    }
  }

  /** Since its last reset the counter has counted exactly the increments that took effect. */
  lemma {:induction false} HeldSinceWipe(v: int, h: seq<Call>, i: nat, a: string)
    requires Exact(v, h, a) && i < |h| && h[i].Wipe? && h[i].action == a
    requires forall k :: i < k < |h| ==> !(h[k].Wipe? && h[k].action == a)
    ensures Held(v, h, a) == Acked(h[i + 1..], a) + Dup(h[i + 1..], a)
  {
    var n := |h| - 1;
    var p := h[..n];
    if i == n {
      assert Removed(h, a) == Removed(p, a) + Held(v, p, a);
    } else {
      assert forall j :: 0 <= j <= n ==> p[..j] == h[..j];
      HeldSinceWipe(v, p, i, a);
      var later := h[i + 1..];
      assert later[..|later| - 1] == p[i + 1..] && later[|later| - 1] == h[n];
    }
  }

  /** A reset of `a` was scheduled and has not been carried out since. */
  predicate Owed(h: seq<Call>, a: string) {
    h != [] &&
    var c := h[|h| - 1];
    if c.action == a && c.Zeroing? then c.error.Some?
    else if c.action == a && c.Deferral? then true
    else Owed(h[..|h| - 1], a)
  }

  /** No increment of an action is sent while a reset of it is owed. */
  predicate NoOvertaking(h: seq<Call>) {
    forall j :: 0 <= j < |h| && h[j].Increment? ==> !Owed(h[..j], h[j].action)
  }

  predicate FailedReset(c: Call, a: string) {
    c.action == a && (c.Deferral? || (c.Zeroing? && c.error.Some?))
  }

  predicate DoneReset(c: Call, a: string) {
    c.action == a && c.Zeroing? && c.error.None?
  }

  /** `a` is owed a reset exactly when some failed or skipped reset has no success after it. */
  lemma {:induction false} OwedMeaning(h: seq<Call>, a: string)
    ensures Owed(h, a) <==>
            exists i :: 0 <= i < |h| && FailedReset(h[i], a) && forall k :: i < k < |h| ==> !DoneReset(h[k], a)
  {
    if h != [] {
      var n := |h| - 1;
      var p := h[..n];
      OwedMeaning(p, a);
      if Owed(h, a) {
        if FailedReset(h[n], a) {
        } else {
          var i :| 0 <= i < |p| && FailedReset(p[i], a) && forall k :: i < k < |p| ==> !DoneReset(p[k], a);
          assert FailedReset(h[i], a);
          forall k | i < k < |h|
            ensures !DoneReset(h[k], a)
          {
            assert k < n ==> h[k] == p[k];
          }
        }
      } else {
        forall i | 0 <= i < |h| && FailedReset(h[i], a)
          ensures exists k :: i < k < |h| && DoneReset(h[k], a)
        {
          if !DoneReset(h[n], a) {
            assert p[i] == h[i];
            var k :| i < k < |p| && DoneReset(p[k], a);
            assert h[k] == p[k];
          }
        }
      }
    }
  }

  /** What NoOvertaking means for a reader of the history: between a failed or skipped reset of an
      action and any later increment of that action lies a reset that succeeded. */
  lemma NoOvertakingMeaning(h: seq<Call>, i: nat, j: nat, a: string)
    requires NoOvertaking(h) && i < j < |h|
    requires FailedReset(h[i], a) && h[j].Increment? && h[j].action == a
    ensures exists k :: i < k < j && DoneReset(h[k], a)
  {
    OwedMeaning(h[..j], a);
    assert FailedReset(h[..j][i], a);
    var k :| i < k < j && DoneReset(h[..j][k], a);
    assert DoneReset(h[k], a);
  }

  /** The counter of `a` was last set to zero, by a reset that may have failed afterwards, and nothing
      was added to it since. */
  predicate Wiped(h: seq<Call>, a: string) {
    h != [] &&
    var c := h[|h| - 1];
    if c.action == a && c.Zeroing? && c.wiped then true
    else if c.action == a && c.Increment? && c.applied then false
    else Wiped(h[..|h| - 1], a)
  }

  /** A reset that failed half-way and has not been redone: no increment of the action came after it,
      so what it had set to zero still is. */
  lemma {:induction false} HalfDoneStaysWiped(h: seq<Call>, i: nat, a: string)
    requires NoOvertaking(h) && i < |h| && FailedReset(h[i], a) && h[i].Zeroing? && h[i].wiped
    requires forall k :: i < k < |h| ==> !DoneReset(h[k], a)
    ensures Wiped(h, a)
  {
    var n := |h| - 1;
    var p := h[..n];
    if i < n {
      assert forall j :: 0 <= j <= n ==> p[..j] == h[..j];
      HalfDoneStaysWiped(p, i, a);
      if h[n].Increment? && h[n].action == a {
        NoOvertakingMeaning(h, i, n, a);
      }
    }
  }

  /** An increment of `a` took effect although its call failed, and no increment or reset of `a` has
      succeeded since. */
  predicate Unsure(h: seq<Call>, a: string) {
    h != [] &&
    var c := h[|h| - 1];
    if c.action == a && c.Increment? && (c.error.None? || c.applied) then c.error.Some?
    else if DoneReset(c, a) then false
    else Unsure(h[..|h| - 1], a)
  }

  predicate AppliedInVain(c: Call, a: string) {
    c.action == a && c.Increment? && c.applied && c.error.Some?
  }

  predicate Succeeded(c: Call, a: string) {
    DoneReset(c, a) || (c.action == a && c.Increment? && c.error.None?)
  }

  /** Call number `i` added to the counter although it failed, and no increment or reset succeeded since. */
  predicate UnsureSince(h: seq<Call>, i: nat, a: string) {
    i < |h| && AppliedInVain(h[i], a) && forall k :: i < k < |h| ==> !Succeeded(h[k], a)
  }

  lemma {:induction false} UnsureMeaning(h: seq<Call>, a: string)
    ensures Unsure(h, a) <==> exists i :: 0 <= i < |h| && UnsureSince(h, i, a)
  {
    if h != [] {
      var n := |h| - 1;
      var p := h[..n];
      UnsureMeaning(p, a);
      if AppliedInVain(h[n], a) {
        assert Unsure(h, a) && UnsureSince(h, n, a);
      } else if Succeeded(h[n], a) {
        assert !Unsure(h, a);
      } else {
        forall i | 0 <= i < n
          ensures UnsureSince(p, i, a) <==> UnsureSince(h, i, a)
        {
          assert forall k :: i <= k < n ==> p[k] == h[k];
        }
      }
    }
  }

  /** Among the calls from number `since` on, the latest one that wrote the counter of `a` was an
      increment whose call failed. */
  predicate Stranded(h: seq<Call>, since: nat, a: string) {
    |h| > since &&
    var c := h[|h| - 1];
    if c.action == a && c.Increment? && c.applied then c.error.Some?
    else if c.action == a && c.Zeroing? && c.wiped then false
    else Stranded(h[..|h| - 1], since, a)
  }

  predicate Rewrites(c: Call, a: string) {
    c.action == a && ((c.Increment? && c.applied && c.error.None?) || (c.Zeroing? && c.wiped))
  }

  /** Call number `i` added to the counter and failed, and no call wrote the counter since. */
  predicate LastInVain(h: seq<Call>, i: nat, a: string) {
    i < |h| && AppliedInVain(h[i], a) && forall k :: i < k < |h| ==> !Rewrites(h[k], a)
  }

  lemma {:induction false} StrandedMeaning(h: seq<Call>, since: nat, a: string)
    ensures Stranded(h, since, a) <==> exists i :: since <= i < |h| && LastInVain(h, i, a)
  {
    if |h| > since {
      var n := |h| - 1;
      var p := h[..n];
      StrandedMeaning(p, since, a);
      if AppliedInVain(h[n], a) {
        assert Stranded(h, since, a) && LastInVain(h, n, a);
      } else if Rewrites(h[n], a) {
        assert !Stranded(h, since, a);
      } else {
        forall i | since <= i < n
          ensures LastInVain(p, i, a) <==> LastInVain(h, i, a)
        {
          assert forall k :: i <= k < n ==> p[k] == h[k];
        }
      }
    }
  }

  /** Every monitoring value written for `a` reported what the counter held at that moment. */
  predicate Truthful(h: seq<Call>, a: string) {
    forall i :: 0 <= i < |h| && h[i].Report? && h[i].action == a ==> h[i].lines == h[i].actual
  }

  /** An account agrees with the history of calls. */
  predicate Recorded(x: Account, h: seq<Call>, since: nat, a: string) {
    && x.acked == Acked(h, a) && x.dup == Dup(h, a) && Own(x) == Removed(h, a)
    && x.owed == Owed(h, a) && x.unsure == Unsure(h, a)
    && x.renewals.keySet == EverSet(h, a, false) && x.renewals.beatSet == EverSet(h, a, true)
    && (Wiped(h, a) ==> x.zeroed)
    && (x.bare ==> Stranded(h, since, a))
  }

  predicate Audited(g: Books) {
    forall a :: a in g.book ==> Recorded(g.book[a], g.calls, g.refreshedAt, a)
  }

  lemma RecordedAt(g: Books, a: string)
    requires Closed(g) && a in g.book
    ensures Recorded(g.book[a], g.calls, g.refreshedAt, a) && g.book[a].applied == g.book[a].acked + g.book[a].dup
  {
  }

  /** What the counter of an undisturbed account holds follows from the calls alone. */
  lemma HeldNow(e: Env, g: Books, a: string)
    requires Closed(g) && a in g.book && Sound(e, g, g.book[a]) && Alone(g.book[a])
    ensures Val(g.book[a].counter) == Held(g.book[a].initial, g.calls, a)
  {
    hide Timed;
    RecordedAt(g, a);
  }

  /** While nobody else touches an account its counter moves by what the calls in between say, whatever
      came of them and whatever happened before. */
  lemma QuietMoves(e: Env, g: Books, h: Books, a: string)
    requires Closed(g) && Closed(h) && a in g.book && a in h.book && h.book[a].initial == g.book[a].initial
    requires Sound(e, g, g.book[a]) && Sound(e, h, h.book[a])
    requires Later(g.book[a], h.book[a]) && Quiet(g.book[a], h.book[a])
    ensures Val(h.book[a].counter) - Val(g.book[a].counter) == Held(0, h.calls, a) - Held(0, g.calls, a)
  {
    hide Timed;
    RecordedAt(g, a);
    RecordedAt(h, a);
  }

  /** When a counter may be without an expiry after a call. */
  predicate BareAfter(x: Account, y: Account, c: Call) {
    y.bare ==>
      if c.Increment? && c.applied then c.error.Some?
      else x.bare && !(c.Zeroing? && c.wiped)
  }

  predicate Settled(g: Books) {
    forall a :: a in g.book ==> g.book[a].applied == g.book[a].acked + g.book[a].dup
  }

  /** A reset has removed what the counter held. */
  function Emptied(x: Account, removed: int): Account {
    x.(erased := x.erased + removed, zeroed := true, renewals := x.renewals.(keySet := true))
  }

  /** What the commands of a call change in the ledger part of an account. */
  function Effect(x: Account, c: Call): Account {
    match c
    case Increment(_, delta, applied, _) => if applied then x.(applied := x.applied + delta, zeroed := false) else x
    case Report(_, _, _, applied, _) => if applied then x.(renewals := x.renewals.(beatSet := true)) else x
    case Wipe(_, removed) => Emptied(x, removed)
    case Zeroing(_, wiped, _) => if wiped then x.(zeroed := true) else x
    case _ => x
  }

  /** What the outcome of a call changes there. */
  function Posted(x: Account, c: Call): Account {
    match c
    case Increment(_, delta, applied, error) =>
      if error.None? then x.(acked := x.acked + delta, unsure := false)
      else if applied then x.(dup := x.dup + delta, unsure := true)
      else x
    case Report(_, _, _, _, _) => x
    case Wipe(_, _) => x
    case Zeroing(_, _, error) => if error.None? then x.(owed := false, unsure := false) else x.(owed := true)
    case Deferral(_) => x.(owed := true)
  }

  function After(x: Account, c: Call): Account {
    Posted(Effect(x, c), c)
  }

  /** The parts of an account that are audited. */
  predicate SameAudit(x: Account, y: Account) {
    && y.acked == x.acked && y.dup == x.dup && y.owed == x.owed && y.unsure == x.unsure && y.zeroed == x.zeroed
    && Own(y) == Own(x) && y.renewals.keySet == x.renewals.keySet && y.renewals.beatSet == x.renewals.beatSet
  }

  lemma AuditedPost(g: Books, h: Books, c: Call)
    requires Audited(g) && c.action in g.book && g.refreshedAt <= |g.calls|
    requires h.calls == g.calls + [c] && h.book.Keys == g.book.Keys && h.refreshedAt == g.refreshedAt
    requires forall a :: a in g.book && a != c.action ==>
              SameAudit(g.book[a], h.book[a]) && (h.book[a].bare ==> g.book[a].bare)
    requires SameAudit(After(g.book[c.action], c), h.book[c.action]) && BareAfter(g.book[c.action], h.book[c.action], c)
    requires c.Increment? && c.error.None? ==> c.applied
    ensures Audited(h)
  {
    hide Recorded, SameAudit, BareAfter, After;
    forall a | a in h.book
      ensures Recorded(h.book[a], h.calls, h.refreshedAt, a)
    {
      if a == c.action {
        RecordedPost(g.book[a], h.book[a], g.calls, g.refreshedAt, c);
      } else {
        RecordedPast(g.book[a], h.book[a], g.calls, g.refreshedAt, c, a);
      }
    }
  }

  lemma RecordedPost(x: Account, y: Account, h: seq<Call>, since: nat, c: Call)
    requires Recorded(x, h, since, c.action) && since <= |h| && (c.Increment? && c.error.None? ==> c.applied)
    requires SameAudit(After(x, c), y) && BareAfter(x, y, c)
    ensures Recorded(y, h + [c], since, c.action)
  {
    assert (h + [c])[..|h|] == h;
    EverSetPost(h, c, c.action, false);
    EverSetPost(h, c, c.action, true);
  }

  lemma RecordedPast(x: Account, y: Account, h: seq<Call>, since: nat, c: Call, a: string)
    requires Recorded(x, h, since, a) && since <= |h| && a != c.action
    requires SameAudit(x, y) && (y.bare ==> x.bare)
    ensures Recorded(y, h + [c], since, a)
  {
    assert (h + [c])[..|h|] == h;
    EverSetPost(h, c, a, false);
    EverSetPost(h, c, a, true);
  }

  lemma NoOvertakingPost(h: seq<Call>, c: Call)
    requires NoOvertaking(h)
    requires c.Increment? ==> !Owed(h, c.action)
    ensures NoOvertaking(h + [c])
  {
    var t := h + [c];
    forall j | 0 <= j < |t| && t[j].Increment?
      ensures !Owed(t[..j], t[j].action)
    {
      if j < |h| {
        assert t[..j] == h[..j];
      } else {
        assert t[..j] == h;
      }
    }
  }

  // ---------- the latest call about an action ----------

  /** The error a call ended with. */
  function ErrorOf(c: Call): Option<Error> {
    match c
    case Increment(_, _, _, error) => error
    case Report(_, _, _, _, error) => error
    case Zeroing(_, _, error) => error
    case _ => None
  }

  /** The latest call about `a` among those from number `since` on. */
  function LastOf(h: seq<Call>, since: nat, a: string): Option<Call> {
    if |h| <= since then None
    else if h[|h| - 1].action == a then Some(h[|h| - 1])
    else LastOf(h[..|h| - 1], since, a)
  }

  /** Redis was out of reach: there was an error, and it was neither a reply nor a value of the server. */
  predicate OutOfReach(error: Option<Error>) {
    error == Some(Transport) || error == Some(Canceled)
  }

  lemma OutOfReachIsUnavailable(error: Option<Error>)
    ensures OutOfReach(error) <==> IsUnavailable(error)
  {
  }

  lemma {:induction false} LastOfMeans(h: seq<Call>, since: nat, a: string)
    ensures var last := LastOf(h, since, a);
            if last.None? then forall i :: since <= i < |h| ==> h[i].action != a
            else exists i :: since <= i < |h| && h[i] == last.value && h[i].action == a
                             && forall k :: i < k < |h| ==> h[k].action != a
  {
    if |h| > since && h[|h| - 1].action != a {
      var p := h[..|h| - 1];
      LastOfMeans(p, since, a);
      if LastOf(p, since, a).Some? {
        var i :| since <= i < |p| && p[i] == LastOf(p, since, a).value && p[i].action == a
                 && forall k :: i < k < |p| ==> p[k].action != a;
        assert h[i] == p[i];
        forall k | i < k < |h|
          ensures h[k].action != a
        {
          assert k < |p| ==> h[k] == p[k];
        }
      } else {
        forall i | since <= i < |h|
          ensures h[i].action != a
        {
          assert i < |p| ==> h[i] == p[i];
        }
      }
    }
  }

  /** Calls about other actions change nothing. */
  lemma {:induction false} LastOfElsewhere(h: seq<Call>, i: seq<Call>, since: nat, a: string, b: string)
    requires About(h, i, a) && a != b && since <= |h|
    ensures LastOf(i, since, b) == LastOf(h, since, b)
    decreases |i|
  {
    if |i| > |h| {
      LastOfElsewhere(h, i[..|i| - 1], since, a, b);
    } else {
      assert i == h;
    }
  }

  /** The latest call of two stretches is that of the second, if it has one. */
  lemma {:induction false} LastOfTwo(h: seq<Call>, i: seq<Call>, since: nat, a: string)
    requires h <= i && since <= |h|
    ensures LastOf(i, since, a) == if LastOf(i, |h|, a).Some? then LastOf(i, |h|, a) else LastOf(h, since, a)
    decreases |i|
  {
    if |i| > |h| {
      LastOfTwo(h, i[..|i| - 1], since, a);
    } else {
      assert i == h;
    }
  }

  lemma {:induction false} LastOfLater(h: seq<Call>, since: nat, later: nat, a: string)
    requires since <= later && LastOf(h, later, a).Some?
    ensures LastOf(h, since, a) == LastOf(h, later, a)
  {
    if h[|h| - 1].action != a {
      LastOfLater(h[..|h| - 1], since, later, a);
    }
  }

  lemma LastOfOne(h: seq<Call>, c: Call)
    ensures LastOf(h + [c], |h|, c.action) == Some(c)
  {
  }

  // ---------- one call of the daemon to its store ----------

  /** All new calls are about one action. */
  predicate About(h: seq<Call>, i: seq<Call>, a: string) {
    h <= i && forall k :: |h| <= k < |i| ==> i[k].action == a
  }

  lemma AboutOn(h: seq<Call>, i: seq<Call>, j: seq<Call>, a: string)
    requires About(h, i, a) && About(i, j, a)
    ensures About(h, j, a)
  {
  }

  /** What the books go through during a call about `a`, apart from the account of `a` itself. */
  predicate Worked(e: Env, g: Books, h: Books, a: string) {
    && Onward(e, g, h) && About(g.calls, h.calls, a)
    && h.touched == g.touched && h.freshUntil == g.freshUntil && h.refreshedAt == g.refreshedAt
    && g.answered <= h.answered && g.failures <= h.failures && g.outages <= h.outages && g.alarms <= h.alarms
    && (forall b :: b in g.book && b != a ==>
          Aside(e, g.book[b], h.book[b]) && h.book[b].renewals == g.book[b].renewals)
    && (a in g.book ==> HandsOff(e, g.book[a], h.book[a]) && (e.ttl == 0 ==> Unrenewed(g.book[a], h.book[a])))
  }

  /** Only a SET can have changed the expiry of the keys. */
  predicate Unrenewed(x: Account, y: Account) {
    y.renewals.key == x.renewals.key && y.renewals.beat == x.renewals.beat
  }

  lemma CommandIsWork(e: Env, g: Books, h: Books, a: string)
    requires Commanded(e, g, h, a) && (e.ttl > 0 || (a in g.book && Unrenewed(g.book[a], h.book[a])))
    ensures Worked(e, g, h, a) && h.book.Keys == g.book.Keys
    ensures h.calls == g.calls && h.answered == g.answered && h.failures == g.failures && h.outages == g.outages
    ensures h.alarms == g.alarms
  {
  }

  lemma StaysAlone(e: Env, g: Books, h: Books, a: string)
    requires Worked(e, g, h, a)
    ensures Onward(e, g, h) && h.touched == g.touched && h.freshUntil == g.freshUntil
    ensures a in g.book ==> a in h.book && Later(g.book[a], h.book[a])
    ensures a in g.book && Alone(h.book[a]) ==> Alone(g.book[a]) && Quiet(g.book[a], h.book[a])
  {
  }

  lemma WorksNowhere(e: Env, g: Books, a: string)
    ensures Worked(e, g, g, a)
  {
  }

  lemma DriftIsWork(e: Env, g: Books, h: Books, a: string)
    requires Drift(e, g, h)
    ensures Worked(e, g, h, a) && h.book.Keys == g.book.Keys
    ensures h.calls == g.calls && h.answered == g.answered && h.failures == g.failures && h.outages == g.outages
    ensures h.alarms == g.alarms
  {
  }

  lemma WorksOn(e: Env, g: Books, h: Books, i: Books, a: string)
    requires Worked(e, g, h, a) && Worked(e, h, i, a)
    ensures Worked(e, g, i, a)
  {
    hide Onward, Aside, About;
    OnwardOn(e, g, h, i);
    AboutOn(g.calls, h.calls, i.calls, a);
    forall b | b in g.book && b != a
      ensures Aside(e, g.book[b], i.book[b]) && i.book[b].renewals == g.book[b].renewals
    {
      AsideOn(e, g.book[b], h.book[b], i.book[b]);
    }
  }

  lemma AsideOn(e: Env, x: Account, y: Account, z: Account)
    requires Aside(e, x, y) && Aside(e, y, z)
    ensures Aside(e, x, z)
  {
  }

  /** The books with a finished call entered in the history and in the account of its action.  A call
      that stands for a round trip of its own is counted by its outcome. */
  function Filed(g: Books, c: Call, trip: Option<Option<Error>>): Books
    requires c.action in g.book
  {
    g.(calls := g.calls + [c],
       book := g.book[c.action := Posted(g.book[c.action], c)],
       answered := g.answered + (if trip == Some(None) then 1 else 0),
       failures := g.failures + (if trip.Some? && trip.value.Some? then 1 else 0),
       outages := g.outages + (if trip.Some? && IsUnavailable(trip.value) then 1 else 0),
       alarms := g.alarms + (if trip.Some? && IsAlarm(trip.value) then 1 else 0))
  }

  /** What the books go through while the daemon works on no action in particular. */
  predicate Rested(e: Env, g: Books, h: Books) {
    && Onward(e, g, h)
    && g.answered <= h.answered && g.failures <= h.failures && g.outages <= h.outages && g.alarms <= h.alarms
    && h.calls == g.calls
    && (forall b :: b in g.book ==> Aside(e, g.book[b], h.book[b]))
  }

  predicate Closed(g: Books) {
    Audited(g) && Settled(g) && g.refreshedAt <= |g.calls|
  }

  /** A call whose commands had the stated effect leaves the accounts in agreement with the history. */
  lemma CallCloses(e: Env, g: Books, h: Books, c: Call, trip: Option<Option<Error>>)
    requires Closed(g) && c.action in g.book && Worked(e, g, h, c.action) && h.calls == g.calls
    requires SameLedger(Effect(g.book[c.action], c), h.book[c.action])
    requires (c.Increment? && c.error.None? ==> c.applied) && BareAfter(g.book[c.action], h.book[c.action], c)
    ensures Closed(Filed(h, c, trip))
    ensures Worked(e, g, Filed(h, c, trip), c.action)
    ensures SameLedger(After(g.book[c.action], c), Filed(h, c, trip).book[c.action])
  {
    hide Audited, Effect, Posted, Worked, Aside;
    OthersKept(e, g, h, c.action);
    PostedSame(g.book[c.action], h.book[c.action], c);
    FiledWork(e, g, h, c, trip);
    AuditedPost(g, Filed(h, c, trip), c);
  }

  lemma ClosedSame(g: Books, h: Books)
    requires Closed(g) && h.book == g.book && h.calls == g.calls && h.refreshedAt == g.refreshedAt
    ensures Closed(h)
  {
  }

  /** A command that is no increment leaves the accounts in agreement with the history. */
  lemma StillClosed(e: Env, g: Books, h: Books, a: string)
    requires Closed(g) && Worked(e, g, h, a) && h.calls == g.calls && a in g.book && a in h.book
    requires SameLedger(g.book[a], h.book[a]) && (h.book[a].bare ==> g.book[a].bare)
    ensures Closed(h)
  {
    hide SameLedger, Closed;
    OthersKept(e, g, h, a);
    SameClosed(g, h);
  }

  lemma EffectAcked(x: Account, c: Call)
    ensures Effect(x, c).acked == x.acked
  {
  }

  lemma PostedSame(x: Account, y: Account, c: Call)
    requires SameLedger(Effect(x, c), y)
    requires c.Increment? && c.error.None? ==> c.applied
    ensures SameLedger(After(x, c), Posted(y, c))
    ensures SameAudit(After(x, c), Posted(y, c)) && Posted(y, c).bare == y.bare
    ensures x.applied == x.acked + x.dup ==> Posted(y, c).applied == Posted(y, c).acked + Posted(y, c).dup
  {
    hide Effect, Posted, SameAudit;
    PostedBoth(Effect(x, c), y, c);
    if x.applied == x.acked + x.dup {
      EffectSettles(x, c);
    }
  }

  lemma PostedBoth(x: Account, y: Account, c: Call)
    requires SameLedger(x, y)
    ensures SameLedger(Posted(x, c), Posted(y, c)) && SameAudit(Posted(x, c), Posted(y, c))
    ensures Posted(y, c).bare == y.bare
  {
    hide Later, Own;
    PostedOthers(x, c);
    PostedOthers(y, c);
    SameOthers(x, y, Posted(x, c), Posted(y, c));
  }

  lemma PostedOthers(x: Account, c: Call)
    ensures Posted(x, c).others == x.others && Posted(x, c).erased == x.erased && Own(Posted(x, c)) == Own(x)
  {
  }

  lemma SameOthers(x: Account, y: Account, x': Account, y': Account)
    requires Later(x, y) && x'.others == x.others && y'.others == y.others
    ensures Later(x', y')
  {
  }

  lemma EffectSettles(x: Account, c: Call)
    requires x.applied == x.acked + x.dup && (c.Increment? && c.error.None? ==> c.applied)
    ensures After(x, c).applied == After(x, c).acked + After(x, c).dup
  {
  }

  lemma OthersKept(e: Env, g: Books, h: Books, a: string)
    requires Worked(e, g, h, a)
    ensures h.book.Keys == g.book.Keys
    ensures h.refreshedAt == g.refreshedAt
    ensures forall b :: b in g.book && b != a ==>
              SameLedger(g.book[b], h.book[b]) && (h.book[b].bare ==> g.book[b].bare)
  {
    forall b | b in g.book && b != a
      ensures SameLedger(g.book[b], h.book[b]) && (h.book[b].bare ==> g.book[b].bare)
    {
      assert Aside(e, g.book[b], h.book[b]);
    }
  }

  lemma FiledWork(e: Env, g: Books, h: Books, c: Call, trip: Option<Option<Error>>)
    requires c.action in g.book && Worked(e, g, h, c.action)
    ensures c.action in h.book && Worked(e, g, Filed(h, c, trip), c.action)
  {
    hide Aside, IsUnavailable, IsAlarm, Onward, HandsOff, Posted;
    OnwardKeys(e, g, h);
    PostedHands(e, g.book[c.action], h.book[c.action], c);
    PostedOnward(e, g, h, Posted(h.book[c.action], c), c.action, Filed(h, c, trip));
  }

  lemma PostedHands(e: Env, x: Account, y: Account, c: Call)
    requires HandsOff(e, x, y)
    ensures HandsOff(e, x, Posted(y, c)) && Posted(y, c).others == y.others && Posted(y, c).renewals == y.renewals
  {
  }

  /** Bookkeeping on one account is no step of the world. */
  lemma PostedOnward(e: Env, g: Books, h: Books, y: Account, a: string, i: Books)
    requires Onward(e, g, h) && a in h.book && i.book == h.book[a := y] && y.others == h.book[a].others
    requires i.now == h.now && i.lastWrite == h.lastWrite
    requires i.touched == h.touched && i.freshUntil == h.freshUntil && i.starved == h.starved
    requires i.missed == h.missed && |h.calls| <= |i.calls|
    ensures Onward(e, g, i)
  {
  }

  lemma FiledSame(e: Env, g: Books, c: Call, trip: Option<Option<Error>>)
    requires c.action in g.book && Clocked(e, g)
    ensures var h := Filed(g, c, trip);
            && Clocked(e, h) && h.now == g.now && h.book.Keys == g.book.Keys
            && forall a :: a in g.book ==>
                 && h.book[a].counter == g.book[a].counter && h.book[a].heartbeat == g.book[a].heartbeat
                 && h.book[a].initial == g.book[a].initial
                 && h.book[a].others == g.book[a].others && h.book[a].renewals == g.book[a].renewals
                 && h.book[a].acked
                 == g.book[a].acked + if a == c.action && c.Increment? && c.error.None? then c.delta else 0
  {
  }

  /** Entering a call touches no key, so what holds of the keys stays true. */
  lemma SoundPosted(e: Env, g: Books, h: Books, x: Account, c: Call)
    requires Sound(e, g, x) && (c.Increment? ==> 0 <= c.delta)
    requires h.touched == g.touched && h.freshUntil == g.freshUntil && h.lastWrite == g.lastWrite
    requires h.starved == g.starved
    ensures Sound(e, h, Posted(x, c)) && Sound(e, h, x)
  {
    hide Find, Val, Timed;
    assert Timed(e, h, x.counter, x.bare) == Timed(e, g, x.counter, x.bare) by {
      SameTimes(e, g, h, x.counter, x.bare);
    }
    SameTimes(e, g, h, x.heartbeat, false);
  }

  lemma SameTimes(e: Env, g: Books, h: Books, key: Option<Entry>, bare: bool)
    requires h.touched == g.touched && h.freshUntil == g.freshUntil && h.lastWrite == g.lastWrite
    ensures Timed(e, h, key, bare) == Timed(e, g, key, bare)
  {
  }

  lemma SoundFiled(e: Env, g: Books, c: Call, trip: Option<Option<Error>>)
    requires c.action in g.book && (c.Increment? ==> 0 <= c.delta)
    requires forall a :: a in g.book ==> Sound(e, g, g.book[a])
    ensures var h := Filed(g, c, trip); forall a :: a in h.book ==> Sound(e, h, h.book[a])
  {
    hide Sound, Posted, IsUnavailable;
    forall a | a in g.book
      ensures Sound(e, Filed(g, c, trip), Filed(g, c, trip).book[a])
    {
      SoundPosted(e, g, Filed(g, c, trip), g.book[a], c);
    }
  }
}
