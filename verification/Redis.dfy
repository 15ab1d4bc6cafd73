/** The Redis server as the daemon sees it: one flat keyspace, a clock, and a connection that may
    fail before or after a command took effect. */
module Redis {
  import opened Prelude
  import opened Keyspace

  /** What happens to one command: it is done and answered, it fails without having been done, or it
      is done but the answer is lost. */
  datatype Outcome = Done | NotDone(error: Error) | Unanswered(error: Error)

  class Server {
    var db: Db
    var clock: nat
    ghost var sent: nat       // commands the daemon has sent

    constructor (db: Db, clock: nat)
      ensures this.db == db && this.clock == clock
    {
      this.db := db;
      this.clock := clock;
      this.sent := 0;
    }

    /** The connection decides what becomes of a command. */
    method Attempt() returns (outcome: Outcome)
    {
      outcome := *;
    }

    /** SET key value NX [EX ttl] */
    method SetNX(key: string, value: Value, ttl: nat) returns (r: Result<()>, ghost applied: bool)
      modifies `db, `sent
      ensures sent == old(sent) + 1
      ensures db == if applied then old(db)[key := Stamp(value, ttl, clock)] else old(db)
      ensures applied ==> key !in old(db)
      ensures r.Ok? && key !in old(db) ==> applied
    {
      sent := sent + 1;
      var outcome := Attempt();
      applied := !outcome.NotDone? && key !in db;
      if !outcome.NotDone? && key !in db {
        db := db[key := Stamp(value, ttl, clock)];
      }
      r := Answer(outcome, ());
    }

    /** SET key value [EX ttl] */
    method Set(key: string, value: Value, ttl: nat) returns (r: Result<()>, ghost applied: bool)
      modifies `db, `sent
      ensures sent == old(sent) + 1
      ensures db == if applied then old(db)[key := Stamp(value, ttl, clock)] else old(db)
      ensures r.Ok? ==> applied
    {
      sent := sent + 1;
      var outcome := Attempt();
      applied := !outcome.NotDone?;
      if !outcome.NotDone? {
        db := db[key := Stamp(value, ttl, clock)];
      }
      r := Answer(outcome, ());
    }

    /** GET key, parsed as an integer.  A missing key is an error reply.  What the parser makes of a value
        that is no integer is an error of its own kind, so although the server answered, it looks like
        an unreachable one, and so it does for no other value. */
    method GetNumber(key: string) returns (r: Result<int>, ghost outcome: Outcome)
      modifies `sent
      ensures sent == old(sent) + 1
      ensures r.Ok? ==> IsNumber(Find(db, key)) && r.value == Val(Find(db, key))
      ensures outcome.Done? && key !in db ==> r == Err(Reply)
      ensures outcome.Done? ==> (r.Ok? <==> IsNumber(Find(db, key)))
      ensures outcome.Done? ==> (IsUnavailable(r.Failed()) <==> key in db && !db[key].value.Number?)
      ensures !outcome.Done? ==> r == Err(outcome.error)
    {
      sent := sent + 1;
      var attempt := Attempt();
      outcome := attempt;
      if attempt.Done? {
        if key !in db {
          r := Err(Reply);
        } else if !db[key].value.Number? {
          r := Err(Transport);
        } else {
          r := Ok(db[key].value.n);
        }
      } else {
        r := Err(attempt.error);
      }
    }

    /** INCRBY key delta: creates a missing key without an expiry, keeps the expiry of an existing
        one, and refuses a value that is no integer. */
    method IncrBy(key: string, delta: int) returns (r: Result<int>, ghost applied: bool)
      modifies `db, `sent
      ensures sent == old(sent) + 1
      ensures applied ==> key !in old(db) || old(db)[key].value.Number?
      ensures db == if applied then old(db)[key := Bumped(Find(old(db), key), delta)] else old(db)
      ensures r.Ok? ==> applied && r.value == Val(Find(db, key))
    {
      sent := sent + 1;
      var outcome := Attempt();
      if outcome.NotDone? {
        applied := false;
        r := Err(outcome.error);
      } else if key in db && !db[key].value.Number? {
        applied := false;
        r := Err(if outcome.Done? then Reply else outcome.error);
      } else {
        applied := true;
        db := db[key := Bumped(Find(db, key), delta)];
        r := Answer(outcome, db[key].value.n);
      }
    }

    /** EXPIRE key ttl, or PERSIST key for a ttl of 0: neither minds a missing key. */
    method Refresh(key: string, ttl: nat) returns (r: Result<()>, ghost applied: bool)
      modifies `db, `sent
      ensures sent == old(sent) + 1
      ensures applied ==> key in old(db)
      ensures db == if applied then old(db)[key := Stamp(old(db)[key].value, ttl, clock)] else old(db)
      ensures r.Ok? && key in old(db) ==> applied
    {
      sent := sent + 1;
      var outcome := Attempt();
      applied := !outcome.NotDone? && key in db;
      if !outcome.NotDone? && key in db {
        db := db[key := Stamp(db[key].value, ttl, clock)];
      }
      r := Answer(outcome, ());
    }

    /** Time passes, and what has reached its expiry is gone. */
    method Advance(seconds: nat)
      modifies this
      ensures clock == old(clock) + seconds && sent == old(sent)
      ensures forall k :: Find(db, k) == Unexpired(Find(old(db), k), clock)
    {
      clock := clock + seconds;
      db := map k | k in db && Unexpired(Some(db[k]), clock).Some? :: db[k];
    }
  }

  /** The errors that count as an outage: all but replies of the server and malformed values. */
  function IsUnavailable(error: Option<Error>): bool {
    error.Some? && !error.value.Malformed? && !error.value.Reply?
  }

  /** Whether the daemon reports an error: a cancelled context says nothing about Redis. */
  function IsAlarm(error: Option<Error>): bool {
    error.Some? && !error.value.Canceled?
  }

  function Answer<T>(outcome: Outcome, value: T): Result<T> {
    if outcome.Done? then Ok(value) else Err(outcome.error)
  }

  function Bumped(e: Option<Entry>, delta: int): Entry
    requires e.None? || e.value.value.Number?
  {
    if e.None? then Entry(Number(delta), None) else e.value.(value := Number(e.value.value.n + delta))
  }

  function Unexpired(e: Option<Entry>, now: nat): Option<Entry> {
    if e.Some? && e.value.expiry.Some? && e.value.expiry.value <= now then None else e
  }
}
