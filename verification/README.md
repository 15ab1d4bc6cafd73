# logstat: a verified model of its counting and reset protocol

logstat tails a log file, counts the lines that contain configured words ("actions"), and keeps one
integer per action in Redis, with an optional text value for monitoring beside it. Redis may be away,
may fail in the middle of an operation, or may carry out a command and lose the answer; another process
may zero a counter; keys expire. This project models that system in Dafny and proves what it promises
over every run.

## How the model is built

| file | what it holds |
|---|---|
| `Matching.dfy`, `Counter.dfy` | the matching rule and the mutex-protected buffer, a class whose maps are changed in place |
| `Keyspace.dfy`, `Redis.dfy` | key names, stored values, and a server object: one flat keyspace, a clock, and for every command one of three outcomes (done, not done, done but answered with an error), each error being of a kind the daemon can tell apart |
| `Ledger.dfy`, `Commands.dfy` | the books of the proof: per action what Redis holds, `acked`, `dup`, `erased` and the history of all store calls; and what one command changes in them |
| `World.dfy` | buffer, server and books together; `Interleave` runs other goroutines and processes (lines arriving, time passing, keys zeroed or deleted from outside) before every command and every access to the buffer |
| `Store.dfy` | the store operations, command by command |
| `Protocol.dfy`, `Daemon.dfy` | what holds of one action between two calls, and the daemon object with `Flush`, `Reset`, the bootstrap and the refresh |
| `Run.dfy` | the select loop, the reset channel of capacity one, the books from turn to turn, the process from its configuration on, and the shutdown |
| `Config.dfy` | normalisation of the actions and the overlap warnings |
| `Logging.dfy` | the printer of log records and a reader for what it prints |

`World.Valid` holds at every interleaving point, `Daemon.Valid` between two operations. Each account counts
what others did to its keys: `meddles` (writes and deletions by other processes, and expiries before the
first refresh) and `lapses` (expiries after it); `seized` and `lost` are the amounts the counter lost that
way. Others only zero, delete or let expire: they never add to a counter (`OnlyTaken`). What a reset removes
is entered in the history when its first SET takes effect (`Wipe`), so a counter holds exactly its value at
the start plus the acknowledged increments plus those of failed calls that took effect, minus the entries of
its resets, minus `seized` and `lost`; for an action nobody touched the last two are 0 and each entry is what
the calls before it had left in the counter (`Exact`). What an operation does to the value of a counter is
stated for accounts that were quiet during that operation, whatever happened before; only the agreement of
monitoring value and counter needs that they were alone during the whole run, and that at the start every
monitoring value was absent or reported its counter (`agreed`). With `sole` no other process writes our keys.
`failures`, `outages`, `alarms` and `answered` count the round trips of the daemon by their outcome, so "no
call failed" is `failures` unchanged. "Taken" is what was drained from the buffer and not put back, so what
is in flight is `taken - acked`. `starved` is set when the clock reaches the moment up to which the keys were
guaranteed to live, and by `Onward` at no other time. `Along` adds to `Onward` that with a ttl of 0 no
refresh and no SET NX follows the bootstrap. `missed` counts the refreshes that failed, and `sent` the
commands of the daemon.

What a flush or reset does when calls fail is stated through the history of calls. Each call carries its
error, `LastOf` is the latest call about an action since the operation began, and `CameTo` says what that call
leaves to be done: nothing if it succeeded, the reset and everything after it if it was a reset, the
increments and the report if it was an increment, the report alone if it was a report. `Reached` adds which
actions were tried at all: all of them up to the first whose call found Redis out of reach (`OutOfReach`).

## Where the code differs from its own documentation

- `Validate` is documented as idempotent in its verdict (internal/config/config.go:165-167). It is, except
  for lists such as `[a, ""]`, which are rejected and then accepted; `Configs.VerdictStable` gives the exact
  condition.
- Keys are meant to outlive the daemon by at most the ttl. An increment leaves the counter without an expiry
  if and only if its EXPIRE did not take effect and the counter had none before or was just made by the INCRBY
  (`Stores.Store.Incr`); such a counter stays for ever (`Commands.LostExpiryStays`, for all books;
  `Commands.LostExpiryArises` reaches such books). `Worlds.World.AllGone` says when that is possible in terms
  of the calls, and after a flush or shutdown without a failed call it is not
  (`Worlds.World.AllGoneWhenRefreshed`).
- A key may carry an expiry from a time when the ttl was not yet 0; it is meant to be removed. The PERSIST for it
  is sent once, by the bootstrap, and never again if it fails: no flush, reset or shutdown of a bootstrapped
  daemon refreshes anything (`Along`). A counter found with an expiry then keeps it through every increment and
  loses everything at that moment (`Commands.LeftoverLapses`). `Worlds.World.LeftoverExpiry` gives the exact
  condition: a key carries an expiry if and only if it carried it at the start, no SET of a reset or report has
  written it, and no PERSIST of the bootstrap took effect on it, as long as nobody else touched the action;
  if somebody did, still only if. Once the bootstrap is through without a failed call no key carries one
  (`Daemons.Daemon.EnsureInit`, `Worlds.World.NoneExpires`).
- `IsUnavailable` is meant for a server that cannot be reached. A read of the bootstrap that the server did
  answer counts as such if and only if the counter holds something other than an integer
  (`Redis.Server.GetNumber`).
- A recovery is meant to end an outage. A flush reports an outage and withdraws it on the spot if and only if
  all writes succeeded, no outage was known, and the refresh at its end failed (`Daemons.Daemon.FinishPass`
  with `Protocol.EndNotices`).

## Model

| member | source | states |
|---|---|---|
| `Running.Serve` | internal/daemon/daemon.go:110-221 | From the configuration to the moment the daemon is asked to stop, over every run: it runs with the configured actions, matching rule, ttl and options; the bootstrap was tried and every turn was one flush or one reset; each line containing an action is acknowledged or still buffered; the counter is what it was + acknowledged + duplicates − what its resets removed − what others or an expiry took, which is nothing for an action nobody touched and never negative if the counter did not begin so |
| `Running.Process` | internal/daemon/daemon.go:110-233 | The whole process, `Serve` and then `Shutdown`: whatever failed before, if no call of the shutdown fails, every counter is what Redis held + the lines that contain the action + the increments of failed calls that took effect − what its resets removed (for an action nobody touched), the buffer is empty and nothing is pending |
| `Running.Runner.Shutdown` | internal/daemon/daemon.go:223-233 | From any state the loop can be in, after any history: no line arrives afterwards, and if none of its own calls fails every counter nobody touches meanwhile moves by exactly what is drained, all counters account for every line ever read, nothing is left to do, and every key carries its expiry; if some fail, the counters still follow the calls |
| `Running.Runner.Work` | internal/daemon/daemon.go:167-221 | Bootstrap and then any number of turns in any order keep the invariants, each turn being one flush or one reset; the bootstrap has succeeded or a call has failed |
| `Running.Runner.Turn` | internal/daemon/daemon.go:196-221 | One turn takes exactly one of the things that are ready, and the token whenever the ticker is not due; without a failed call it comes to what that operation promises, seen from before the waiting; log only extended, at most two unavailable-class errors once bootstrapped, every key good for a full ttl from the beginning of the turn |
| `Running.Runner.Select` | internal/daemon/daemon.go:196-220 | The choice itself: a reset if the ticker is not due, else a flush or, if a token is queued, possibly a reset |
| `Running.Runner.KeysSurvive` | internal/daemon/daemon.go:311-321 | If every turn ends before the moment up to which the keys were safe when it began, no managed key has expired since the first refresh and nothing was lost that way; after the bootstrap the keys of an action nobody else touched are in the keyspace, and once refreshed their expiry lies ahead of the clock |
| `Running.RenewingIsPunctual` | internal/daemon/daemon.go:311-321 | For that it is enough that every turn is without a failed call and that two turns in a row take less than the ttl, idle ones included |
| `Running.Runner.CronFires` | internal/daemon/daemon.go:175-182 | A firing is entered and a token is queued afterwards, its own or an earlier one |
| `Running.Runner.CronRuns` | internal/daemon/daemon.go:173-195 | Beside the loop only firings are entered, none at all with resets switched off; a token is queued if and only if one was or the schedule fired |
| `Running.Runner.OnReset` | internal/daemon/daemon.go:217-219 | Takes the token, enters one reset, and without a failed call every counter is zeroed (`Restarted`) |
| `Running.Runner.OnTick` | internal/daemon/daemon.go:214-215 | Enters one flush and leaves the token; without a failed call everything is flushed (`Converged`) |
| `Running.OneMoreEvent` | internal/daemon/daemon.go:175-220 | A token is queued exactly while a firing waits, and every reset answers a waiting firing: kept by every event of the loop |
| `Running.NoFiringLost` | internal/daemon/daemon.go:175-182 | Each schedule firing has a reset that began after it, or the token is still queued |
| `Running.NoFiringForgotten` | internal/daemon/daemon.go:196-220 | Once the loop has looked after a firing while the ticker was not due, a reset has begun that answers a waiting firing; `Runner.Valid` keeps what this needs in every run |
| `Running.NoResetWithoutFiring` | internal/daemon/daemon.go:175-220 | Resets never outnumber firings, and between any two resets the schedule fired |
| `Running.OneTurn` | internal/daemon/daemon.go:196-220 | However many firings arrive meanwhile, a turn adds exactly one flush or reset |
| `Running.Runner.AllAccounted` | internal/daemon/daemon.go:227-233 | Both conservation laws hold for all actions in every reachable state, in terms of the real keys and the history of calls |
| `Daemons.Daemon.Drain` | internal/daemon/daemon.go:227-233 | If no call fails from its beginning on, whatever failed before, everything is flushed (`Converged`), the acknowledged increments of every action equal the number of lines that contain it, and the buffer is empty |
| `Daemons.Daemon.Flush` | internal/daemon/daemon.go:303-368 | From any reachable state and whatever fails: once bootstrapped the actions are tried in order, each with an outcome of its own, up to the first call that finds Redis out of reach, and no further; the keys are refreshed unless Redis was out of reach or the refresh itself failed; an outage is over exactly if every write succeeded, and the log says so (`Accomplished`, `Freshened`). It is deferred only if the bootstrap itself failed. At most one unavailable-class error (two before the bootstrap); without a failed call every counter nobody else touched moved by exactly what was drained (`Converged`) and the keys are good for a full ttl (`Renewed`); with a ttl of 0 a bootstrapped daemon refreshes nothing (`Along`) |
| `Daemons.Daemon.EachItsOwn` | internal/daemon/daemon.go:329-356 | If Redis stays in reach, then for every action, whatever happens to the others: with work to do there was a call about it; if its last call succeeded nothing is left to do and the counter moved by what was drained; if not, what is remembered and put back is exactly what that call was to do and what comes after it |
| `Daemons.Daemon.FlushReady` | internal/daemon/daemon.go:311-368 | One flush after the bootstrap, idle or not: the outcome of every action, the refresh and the log whatever fails; converges when no call fails, after a pending reset |
| `Daemons.Daemon.FlushIdle` | internal/daemon/daemon.go:312-322 | An idle flush refreshes the keys and reports a recovery only if Redis answered; no counter moves |
| `Daemons.Daemon.EndFlush` | internal/daemon/daemon.go:361-366 | No refresh when Redis is unreachable; what is logged is exactly the failed refresh, if it is news, and the recovery, if all writes had succeeded |
| `Daemons.Daemon.FinishPass` | internal/daemon/daemon.go:358-366 | Whatever was not acknowledged is back in the buffer, so nothing stays in flight; the log as in `EndFlush` |
| `Daemons.Daemon.FlushActions` | internal/daemon/daemon.go:324-356 | After the pass exactly what was set aside is unacknowledged; every action was tried and has its outcome, unless one found Redis out of reach: then all before it were tried and none after it; at most one unavailable-class error; what was logged is exactly the trouble, if it was news |
| `Daemons.Daemon.FlushAction` | internal/daemon/daemon.go:373-409 | A pending reset first, then the increments, then the report, stopping at the first error; which of the three failed decides what is still remembered and whether the increments are sent again, never after they were acknowledged |
| `Daemons.Daemon.SendDelta` | internal/daemon/daemon.go:392-398 | An acknowledged increment is never sent again; one that failed stays in hand, also if it took effect |
| `Daemons.Daemon.SendTotal` | internal/daemon/daemon.go:400-407 | A total that could not be reported is remembered as the total to report |
| `Daemons.Daemon.ResetOne` | internal/daemon/daemon.go:380-385 | A reset that fails is remembered; one that succeeds forgets both kinds of pending work and, unless others interfered, removes all the counter held |
| `Daemons.Daemon.Defer` | internal/daemon/daemon.go:419-423 | A reset skipped because Redis is unreachable is remembered like a failed one |
| `Daemons.Daemon.Reset` | internal/daemon/daemon.go:412-443 | Whatever fails: every action was reset or the reset is remembered, and it is only remembered without a try if an earlier one found Redis out of reach; an outage is over exactly if nothing is left to be reset, whenever it began, and the end of the log says so (`EachReset`). At most two unavailable-class errors (three before the bootstrap); without a failed call every counter nobody else touched meanwhile is zero, and what was erased from it is exactly what it held plus what was drained (`Restarted`) |
| `Daemons.Daemon.EnsureInit` | internal/daemon/daemon.go:447-468 | The bootstrap is done once, is retried until it succeeds, moves no counter, makes no store call on an action; the daemon is unready only if the bootstrap itself failed, and then nothing was answered; once it is through, the refresh after it succeeded or is counted as missed; the log is exact |
| `Daemons.Daemon.RefreshTTL` | internal/daemon/daemon.go:475-486 | True exactly if a refresh was sent and answered; then every key is good for a full ttl from its start and none lacks an expiry |
| `Daemons.Daemon.NoteRedisError` | internal/daemon/daemon.go:490-500 | Warnings and recoveries strictly alternate, beginning with a warning; a cancelled call is not reported |
| `Daemons.Daemon.NoteRedisOK` | internal/daemon/daemon.go:502-507 | A recovery is reported once per outage |
| `Daemons.Daemon.Zero` | internal/daemon/daemon.go:415-443 | The part of a reset after its flush: outcome of every action, and exactly what is logged |
| `Daemons.Daemon.ExactlyOnce` | internal/daemon/daemon.go:303-408 | In every reachable state: lines containing an action = buffered + acknowledged, and the key holds initial + acknowledged + duplicates − removed by resets − taken by others, the last being 0 for an action nobody touched |
| `Daemons.Daemon.CountsSinceReset` | internal/daemon/daemon.go:373-408 | The counter of an action nobody else touched holds exactly the increments that took effect since its last reset |
| `Daemons.Daemon.CountersFollowCalls` | internal/daemon/daemon.go:303-443 | Between any two moments, whatever failed in between: a counter nobody else touched meanwhile has moved by the increments that took effect less what resets removed |
| `Daemons.Daemon.SoleCounts` | internal/daemon/daemon.go:303-443 | If no other process writes our keys and no refresh came too late, a flush without a failed call moves every counter by exactly what was drained, after a pending reset, and a reset leaves every counter at zero |
| `Daemons.Daemon.HeartbeatAgreement` | internal/daemon/daemon.go:377-407 | In every reachable state the monitoring value reports the counter, unless a reset is pending, or the pending total is the counter, or an increment took effect in a failed call, no increment or reset has succeeded since, and increments are buffered |
| `Daemons.Daemon.HeartbeatAgreesWhenDone` | internal/daemon/daemon.go:400-407 | After a flush or reset without a failed call they agree without exception |
| `Daemons.Daemon.ReportsWereTrue` | internal/store/store.go:211-219 | Every monitoring value ever written reported what the counter held at that moment |
| `Daemons.Daemon.ResetsKept` | internal/daemon/daemon.go:377-385 | A reset is remembered exactly while owed, and no increment of an action is sent between a failed or skipped reset and one that succeeds |
| `Daemons.Daemon.HalfDoneReset` | internal/daemon/daemon.go:377-385 | A reset that zeroed the counter and then failed finds it still at zero when redone, so it erases no later increment |
| `Daemons.Daemon.OnlyLaterLines` | internal/daemon/daemon.go:311 | When nothing had to be put back, the buffer holds exactly the lines processed after the Drain |
| `Protocol.IncrementOk` | internal/daemon/daemon.go:392-398 | An increment, acknowledged or not, applied or not, keeps what the daemon relies on for its action |
| `Protocol.ResetOk` | internal/daemon/daemon.go:380-385 | So does a reset that fails before, between or after its two writes |
| `Protocol.ReportOk` | internal/daemon/daemon.go:400-407 | So does a report of the total |
| `Protocol.BootedOk` | internal/daemon/daemon.go:447-459 | So does a bootstrap, complete or not |
| `Protocol.OneMoreFinished` | internal/daemon/daemon.go:329-356 | One step of the pass finishes its action and touches no other; this is where distinct actions are needed |
| `Protocol.SetAside` | internal/daemon/daemon.go:332-347 | After the pass what is unacknowledged is exactly what was set aside to be put back |
| `Protocol.AllFinished` | internal/daemon/daemon.go:329-366 | A pass without errors leaves nothing pending, and if there was work Redis answered a call |
| `Protocol.OneMoreTried` | internal/daemon/daemon.go:329-356 | One step of the pass gives its action an outcome and changes none of the others, failed or not |
| `Protocol.ResetThenCame` | internal/daemon/daemon.go:377-409 | A pending reset that succeeded before the increments and the report leaves the outcome of those |
| `Protocol.OneMoreSwept` | internal/daemon/daemon.go:418-436 | One step of a reset zeroes its action and moves no other counter |
| `Protocol.AllSwept` | internal/daemon/daemon.go:412-443 | Flush and zeroing together erase the old counters and all that was drained, once |
| `Protocol.ResetSeen` | internal/daemon/daemon.go:412-443 | What became of every action in the pass of resets, seen from before the flush; nothing is left to be reset if and only if no reset failed or was skipped |
| `Protocol.SoleIsQuiet` | internal/daemon/daemon.go:470-486 | Without other writers nothing disturbs a key after the first refresh as long as no refresh comes too late |
| `Stores.Store.Init` | internal/store/store.go:138-155 | However often and wherever it fails, and whatever others did earlier, it changes no existing counter or monitoring value; on success every managed key exists unless somebody removed it meanwhile, and a new monitoring value carries the counter's total; after an error the actions before the failing one are done and nothing was sent about later ones |
| `Stores.Store.Touch` | internal/store/store.go:161-179 | Sends one command per managed key whatever comes of the earlier ones, and changes no value; on success no key can expire for a ttl from the start of the call, and no counter is without the expiry it should have |
| `Stores.Store.Incr` | internal/store/store.go:184-207 | Moves the counter by exactly the delta if it took effect, which it may have done although the call failed; success means it did, gives the new total, and with a ttl leaves the key a full ttl to live; the counter is left without an expiry if and only if the EXPIRE did not take effect and it had none or was just made |
| `Stores.Store.SetHeartbeat` | internal/store/store.go:211-219 | Writes the given total, moves no counter, and is a no-op with the option off |
| `Stores.Store.Reset` | internal/store/store.go:222-227 | Unless others interfere during the call it erases what the counter held, at most once, and success leaves both keys at zero; the history gets the amount, the report of zero if it was sent, and the outcome, in that order; no more commands are sent than that, so none after a first SET that failed |
| `Stores.IncrThenRefresh` | internal/store/store.go:193-207 | The EXPIRE in the pipeline of an increment does not change what the increment did |
| `Stores.ZeroThenReport` | internal/store/store.go:222-227 | A reset whose second write fails has still zeroed the counter, and counts as failed |
| `Worlds.World.Conservation` | internal/counter/counter.go:75-111 | At every interleaving point: matched = buffered + in flight + acknowledged, none of them negative, none above the number of lines |
| `Worlds.World.RedisConservation` | internal/daemon/daemon.go:373-408 | Between calls: value of the key = initial + acknowledged + duplicates − removed by resets − taken by others; the last is 0 for an action nobody touched, and not negative if the counter did not begin so |
| `Worlds.World.NothingExpires` | internal/daemon/daemon.go:470-486 | As long as the clock has never reached the end of the guarantee, no managed key has expired since the first refresh and none of `erased` was lost that way |
| `Worlds.World.AllGone` | internal/store/store.go:161-207 | A ttl after the last command nothing is left but counters whose expiry was lost, and for those the latest call that wrote them, made since the latest refresh, was an increment that failed after it took effect |
| `Worlds.World.AllGoneWhenRefreshed` | internal/store/store.go:161-207 | After a refresh, flush or shutdown without a failed call nothing at all is left a ttl after the last command |
| `Worlds.World.KeysTimed` | internal/store/store.go:161-179 | After a successful refresh every managed key that exists carries an expiry between a ttl after its start and a ttl after the latest write |
| `Worlds.World.NoneExpires` | internal/daemon/daemon.go:462-466 | With a ttl of 0 no managed key carries an expiry once the refresh at startup has succeeded |
| `Worlds.World.LeftoverExpiry` | internal/daemon/daemon.go:462-466 | With a ttl of 0 a managed key carries an expiry only if it carried that one at the start, no SET of a reset or report has taken effect on it, and neither has the PERSIST of the bootstrap; and exactly then if nobody else touched the action |
| `Worlds.World.HeartbeatUntouched` | internal/store/store.go:125-130 | With the monitoring value switched off no operation of a whole run writes or re-expires its key |
| `Worlds.World.BeatsNameTheirKey` | internal/store/store.go:37-40 | In every reachable state a monitoring value names the host and the action of its key, unless it was there before the first command |
| `Worlds.World.BuffersBounded` | internal/counter/counter.go:127-149 | No buffer exceeds the number of lines, and their sum not the number of actions times that, in every reachable state |
| `Worlds.World.Interleave` | internal/daemon/daemon.go:288-299 | Lines, time and other processes, in any number and order, keep every invariant; others only zero, delete or let expire, never add, and what a counter loses is booked as theirs; an account nobody touched and whose keys did not expire keeps its keys, and the guarantee given to the keys is missed only when the clock reaches its end |
| `Ledger.OwedMeaning` | internal/daemon/daemon.go:377-385 | A reset is owed if and only if some failed or skipped reset has no success after it |
| `Ledger.LastOfMeans` | internal/daemon/daemon.go:329-352 | The latest call about an action since some moment, said once by recursion and once by position |
| `Ledger.UnsureMeaning` | internal/daemon/daemon.go:392-396 | The fate of an increment is open if and only if it took effect in a failed call and no increment or reset of the action has succeeded since |
| `Ledger.StrandedMeaning` | internal/store/store.go:193-207 | Since the latest refresh the last call that wrote the counter failed after it took effect, said once by recursion and once by position |
| `Ledger.NoOvertakingMeaning` | internal/daemon/daemon.go:377-385 | Between a failed or skipped reset and any later increment of the same action lies a reset that succeeded |
| `Ledger.HalfDoneStaysWiped` | internal/daemon/daemon.go:377-385 | Nothing is added to a counter between a half-done reset and its success |
| `Ledger.HeldSinceWipe` | internal/daemon/daemon.go:373-408 | If every reset removed what the calls before it had left, then what is left after all calls is what took effect since the last reset |
| `Ledger.QuietMoves` | internal/daemon/daemon.go:373-408 | While nobody else touches an account its counter moves by what the calls in between say |
| `Ledger.CounterWritten` | internal/store/store.go:24-27 | A write to the flat keyspace under a counter key is a write to one entry of the per-action map, and to no other |
| `Ledger.HeartbeatWritten` | internal/store/store.go:29-33 | The same for monitoring values |
| `Ledger.NoLapseWhileFresh` | internal/daemon/daemon.go:470-486 | A key can expire only once a full ttl has passed since the start of the latest successful refresh |
| `Ledger.GoneAfterTtl` | internal/store/store.go:161-207 | A ttl after the last write nothing is left but counters whose EXPIRE was lost, and those never expire |
| `Commands.LostExpiryStays` | internal/store/store.go:193-207 | Whatever the books: an INCRBY that makes a missing counter and loses its EXPIRE leaves the books in order and a counter that never expires |
| `Commands.LostExpiryArises` | internal/store/store.go:138-207 | Bootstrap, refresh and a ttl without a refresh lead to such books |
| `Commands.LeftoverLapses` | internal/daemon/daemon.go:462-466 | With a ttl of 0 a counter found with an expiry keeps it through an increment, and if it was not removed everything it holds is gone at that moment |
| `Commands.RefreshHolds` | internal/store/store.go:161-179 | Once every command of a refresh has succeeded, every managed key lives until a ttl after its start and none lacks an expiry, whatever others did meanwhile |
| `Commands.BootsCommand` | internal/store/store.go:138-155 | Every command of the bootstrap preserves what existed when it began |
| `Keyspace.KeysApart` | internal/store/store.go:24-33 | Counter and monitoring keys of a host are injective in the action and disjoint, whatever the texts |
| `Keyspace.KeysInjective` | internal/store/store.go:24-33 | For colon-free hosts two keys are equal if and only if host and action are, even when actions contain colons |
| `Keyspace.ColonHostsCollide` | internal/store/store.go:24-27 | With a colon in a host name they collide |
| `Keyspace.KeysRead` | internal/store/store.go:24-33 | Splitting a key at its colons gives back what it is for, the host and the action |
| `Keyspace.ReaderRecoversLines` | internal/store/store.go:37-40 | The number after the last equals sign of a monitoring value is the number of lines, whatever host and action hold |
| `Keyspace.BeatReads` | internal/store/store.go:37-40 | The whole text of a monitoring value is read back, host, time, action and lines, for host names and times without spaces |
| `Redis.Server.IncrBy` | internal/store/store.go:184-207 | Creates a missing key without an expiry, keeps the expiry of an existing one, and may take effect although it fails |
| `Redis.Server.GetNumber` | internal/store/store.go:73-87 | An answered read of a missing key is an error reply; an answered read counts as an unreachable server if and only if the value is no integer |
| `Counters.Counter.MatchLine` | internal/counter/counter.go:46-71 | Gives exactly the actions that occur in the line, in configuration order: as they stand in case-sensitive mode, whatever lower-casing does, and else the lower-cased action in the lower-cased line |
| `Counters.Counter.ProcessLine` | internal/counter/counter.go:75-85 | Buffer and totals grow by one for each action found |
| `Counters.Counter.Drain` | internal/counter/counter.go:89-98 | Empties the buffer and returns all of it |
| `Counters.Counter.Restore` | internal/counter/counter.go:102-111 | Adds to what accumulated meanwhile; totals are not advanced |
| `Counters.Counter.Matched` | internal/counter/counter.go:117-125 | Every configured action with the number of times the lines incremented it |
| `Counters.Counter.PendingByAction` | internal/counter/counter.go:130-138 | Every configured action with what was counted and not drained since |
| `Counters.Counter.Pending` | internal/counter/counter.go:141-149 | The sum over the buffer, in whatever order the map is visited |
| `Counters.Counter.BufferBounds` | internal/counter/counter.go:75-149 | The bounds that keep buffers and totals from overflowing while the line count does not |
| `Counters.SumWithout` | internal/counter/counter.go:145-147 | The sum over a map does not depend on the order of its entries |
| `Matching.MatchOnce` | internal/counter/counter.go:58-71 | With distinct actions a line increments an action once if it contains it, else not at all |
| `Matching.MatchesText` | internal/counter/counter.go:46-71 | The two case modes in terms of the texts themselves |
| `Matching.TallyIsCount` | internal/counter/counter.go:75-85 | With distinct actions the increments of an action are the number of lines that contain it |
| `Configs.Config.Validate` | internal/config/config.go:169-250 | Reports every problem in order, replaces the actions by the normalised list, and gives the remarks of that list |
| `Configs.ProblemsMean` | internal/config/config.go:169-320 | Each problem is reported if and only if its setting is as it must not be |
| `Configs.NormalMeans` | internal/config/config.go:180-195 | The normalised list has exactly the non-empty actions, distinct, in the order of their first occurrence |
| `Configs.AcceptsMeans` | internal/config/config.go:169-250 | A list is accepted if and only if the other settings are fine, it is not empty and holds no empty action; then the daemon gets a non-empty list of distinct actions |
| `Configs.DuplicatesCount` | internal/config/config.go:188-191 | A repeated action gets one warning for every occurrence after its first |
| `Configs.SecondValidation` | internal/config/config.go:161-168 | Validating an accepted configuration again accepts it with the same list, and only the duplicate warnings are gone |
| `Configs.VerdictStable` | internal/config/config.go:165-167 | The second verdict is the first if and only if the other settings are not fine, or no action is empty, or all are |
| `Configs.RejectedThenAccepted` | internal/config/config.go:165-167 | `[a, ""]` is rejected and then accepted |
| `Configs.Overlaps` | internal/config/config.go:347-381 | Gives the remark of every ordered pair of positions, in order |
| `Configs.SubstringExact` | internal/config/config.go:373-377 | "a is a substring of b" is given once if the needles differ and every possible line matching b also matches a, and never otherwise |
| `Configs.TwinExact` | internal/config/config.go:363-371 | The warning about case twins is given once per unordered pair if the two match exactly the same lines, and never otherwise |
| `Configs.OverlapsVerbatim` | internal/config/config.go:347-381 | In case-sensitive mode: a remark on a pair exactly if one occurs in the other as it stands, and no twins |
| `Configs.OverlapsFolded` | internal/config/config.go:347-381 | In the other mode: twins exactly if the lower-cased texts are equal, else a remark exactly if one of them occurs in the other |
| `Configs.CoversIsContains` | internal/config/config.go:373-377 | Every line matching b matches a if and only if a's needle occurs in b's |
| `LogFormat.Handler.Handle` | internal/logging/logging.go:159-182 | Writes time, padded level, message, then the handler's and the record's attributes, flattened |
| `LogFormat.AppendAttr` | internal/logging/logging.go:184-211 | Writes a tree of attributes as the list of its leaves under dotted keys; it terminates on the tree |
| `LogFormat.DottedConcat` | internal/logging/logging.go:202-207 | Groups appear in a key from the outermost on, none left out |
| `LogFormat.AttrsComeFirst` | internal/logging/logging.go:141-148 | Attributes added to a handler are printed before those of the record, as if the record had them |
| `LogFormat.GroupTakesAll` | internal/logging/logging.go:150-157 | A group added to a handler takes in everything it prints, attributes added earlier included |
| `LogFormat.ReadTextQuotes` | internal/logging/logging.go:213-221 | A value is read back whatever spaces, quotes, equals signs, backslashes or newlines it holds, up to the unprintable characters named below |
| `LogFormat.QuotedWhen` | internal/logging/logging.go:213-221 | A value is quoted if and only if it is empty or holds a space, tab, newline, quote or equals sign |
| `LogFormat.ReadFieldsPrints` | internal/logging/logging.go:202-211 | The whole list of dotted keys and values is read back |
| `LogFormat.RecordRoundTrip` | internal/logging/logging.go:159-221 | For message and keys free of delimiters a record is exactly one line, and time, level, message and the flattened attributes are recovered from it |
| `LogFormat.LevelNames` | internal/logging/logging.go:223-234 | Names of five columns, a level in between having that of the standard level below it |

## Left out

- Tailing, rotation and seeking: the input is an arbitrary sequence of delivered lines and skipped errors.
- The parsers for YAML, cron expressions and listen addresses: their verdicts are fields of the configuration.
- Lower-casing is a parameter of the matching rule, so nothing here depends on Unicode case folding.
- Redis values are unbounded integers; an INCRBY that overflows 64 bits is excluded, and so are pooling, retries and time limits inside go-redis.
- A pipeline is modelled as its commands one after another, each with an outcome of its own; other processes may run between them, which allows more than the server does.
- The monitoring value is stored as a record rather than as text; `Keyspace.ReaderRecoversLines` is about its text.
- Store operations are called with the configured actions only; `Counters`, which the metrics exporter uses, is not part of the model.
- Other processes zero or delete our keys, as `logstat clear` and an operator do (`OnlyTaken`); that somebody writes an arbitrary value into them during a run is not modelled. Keys that are not ours are not followed.
- Agreement of monitoring value and counter is not claimed for an action once another process wrote its keys or one expired; everything else is, operation by operation.
- Loops that run until the daemon is stopped make an arbitrary finite number of turns; the scheduler shares only the channel with the rest, so its firings are placed around the operations.
- LogFormat.ReadTextQuotes: of the escapes of `strconv.Quote` the quote, the backslash and the letters a, b, f, n, r, t, v are modelled; the numeric escapes of other unprintable characters are not.
- slog's general contract, by which attributes added before a group stay outside it: `LogFormat.GroupTakesAll` states what the code does instead.
- The metrics exporter, status page, lock file, signals, log reopening and command line: mostly wiring, with only easy members.
