/** The flush and reset protocol seen from one action: what the daemon may rely on between two calls,
    and how far one pass over the actions has got. */
module Protocol {
  import opened Prelude
  import opened Keyspace
  import opened Redis
  import opened Ledger
  import opened Commands
  import opened Stores

  function Lookup(m: map<string, int>, a: string): Option<int> {
    if a in m then Some(m[a]) else None
  }

  /** The monitoring value reports the counter, or the daemon remembers the total still to be
      reported.  Before the bootstrap the monitoring value may also be missing. */
  predicate Consistent(x: Account, ready: bool, total: Option<int>) {
    if total.Some? then IsNumber(x.counter) && Val(x.counter) == total.value
    else Agree(x.counter, x.heartbeat) || (!ready && x.heartbeat.None?)
  }

  /** What holds of one action between two calls: a reset is owed exactly when the daemon remembers
      it; a counter that moved in a failed call has increments left to send again; and as long as
      nobody else writes the keys, counter and monitoring value agree in all other cases. */
  predicate ActionOk(e: Env, x: Account, ready: bool, inReset: bool, total: Option<int>, marked: int, agreed: bool) {
    && x.owed == inReset
    && (x.unsure ==> x.acked < marked)
    && (ready && Alone(x) ==> KeysThere(e, x))
    && (Alone(x) && agreed && e.heartbeat && !inReset && !x.unsure ==> Consistent(x, ready, total))
  }

  lemma AsideOk(e: Env, x: Account, y: Account, ready: bool, inReset: bool, total: Option<int>,
                marked: int, agreed: bool)
    requires ActionOk(e, x, ready, inReset, total, marked, agreed) && Aside(e, x, y)
    ensures ActionOk(e, y, ready, inReset, total, marked, agreed)
  {
  }

  lemma BootedOk(e: Env, x: Account, y: Account, there: bool, inReset: bool,
                 marked: int, agreed: bool)
    requires ActionOk(e, x, false, inReset, None, marked, agreed) && Booted(e, x, y)
    requires there && Alone(y) ==> KeysThere(e, y)
    ensures ActionOk(e, y, there, inReset, None, marked, agreed)
  {
  }

  lemma ResetOk(e: Env, x: Account, y: Account, c: Call, removed: int, ready: bool, inReset: bool, total: Option<int>,
                marked: int, agreed: bool)
    requires ActionOk(e, x, ready, inReset, total, marked, agreed)
    requires c.Zeroing? && WasReset(e, x, y, c, removed) && HandsOff(e, x, y)
    ensures c.error.None? ==> ActionOk(e, y, ready, false, None, marked, agreed)
    ensures c.error.Some? ==> ActionOk(e, y, ready, true, total, marked, agreed)
  {
  }

  lemma DeferralOk(e: Env, x: Account, ready: bool, inReset: bool, total: Option<int>, marked: int, agreed: bool)
    requires ActionOk(e, x, ready, inReset, total, marked, agreed)
    ensures ActionOk(e, x.(owed := true), ready, true, total, marked, agreed)
  {
  }

  lemma IncrementOk(e: Env, x: Account, y: Account, c: Call, n: int, total: Option<int>,
                    marked: int, agreed: bool)
    requires ActionOk(e, x, true, false, total, marked, agreed)
    requires c.Increment? && Incremented(e, x, y, c) && HandsOff(e, x, y)
    requires c.applied && c.error.Some? ==> x.acked < marked
    requires c.error.None? ==> c.applied && (Alone(y) ==> n == Val(y.counter))
    ensures c.error.None? ==> ActionOk(e, y, true, false, Some(n), marked, agreed) && !y.unsure
    ensures c.error.Some? ==> ActionOk(e, y, true, false, total, marked, agreed)
  {
  }

  lemma ReportOk(e: Env, x: Account, y: Account, beat: Heartbeat, ok: bool,
                 marked: int, agreed: bool)
    requires ActionOk(e, x, true, false, Some(beat.lines), marked, agreed) && !x.unsure
    requires Reported(e, x, y, beat, ok) && HandsOff(e, x, y)
    ensures ActionOk(e, y, true, false, if ok then None else Some(beat.lines), marked, agreed)
  {
  }

  // ---------- what a call adds to the history ----------

  lemma OwedAt(g: Books, a: string)
    requires Closed(g) && a in g.book
    ensures g.book[a].owed == Owed(g.calls, a)
  {
  }

  /** The reports and the resets of `a` in the history say what its counter held, if that follows from
      the calls and from the value `v` at the start. */
  predicate Faithful(v: int, h: seq<Call>, a: string, agreed: bool) {
    Exact(v, h, a) && (agreed ==> Truthful(h, a))
  }

  predicate FaithfulCall(v: int, h: seq<Call>, c: Call, a: string, agreed: bool) {
    c.action == a ==>
      && (c.Wipe? ==> c.removed == Held(v, h, a))
      && (c.Report? && agreed ==> c.lines == c.actual)
  }

  lemma FaithfulPost(v: int, h: seq<Call>, c: Call, a: string, agreed: bool)
    requires Faithful(v, h, a, agreed) && FaithfulCall(v, h, c, a, agreed)
    ensures Faithful(v, h + [c], a, agreed)
  {
    hide Held, Exact;
    ExactPost(v, h, c, a);
  }

  /** The calls of a reset in order. */
  function ResetSteps(h: seq<Call>, i: seq<Call>, c: Call, removed: int): (s: seq<Call>)
    requires c.Zeroing?
    ensures forall quiet :: ResetCalls(h, i, c, removed, quiet) ==> i == h + s
  {
    if !c.wiped then [c]
    else if |i| == |h| + 3 then [Wipe(c.action, removed), i[|h| + 1], c]
    else [Wipe(c.action, removed), c]
  }

  /** A reset overtakes nothing, and it says what is true if it removed what the counter held. */
  lemma ResetHistory(h: seq<Call>, i: seq<Call>, c: Call, removed: int, quiet: bool)
    requires c.Zeroing? && ResetCalls(h, i, c, removed, quiet) && NoOvertaking(h)
    ensures NoOvertaking(i)
  {
    hide NoOvertaking;
    var s := ResetSteps(h, i, c, removed);
    assert i == h + s && s[..1] == [s[0]];
    NoOvertakingPost(h, s[0]);
    if |s| > 1 {
      NoOvertakingPost(h + s[..1], s[1]);
      assert h + s[..2] == h + s[..1] + [s[1]];
    }
    if |s| > 2 {
      NoOvertakingPost(h + s[..2], s[2]);
      assert h + s[..3] == h + s[..2] + [s[2]];
    }
    assert s[..|s|] == s;
  }

  lemma ResetFaithful(v: int, h: seq<Call>, i: seq<Call>, c: Call, removed: int, quiet: bool, a: string, agreed: bool)
    requires c.Zeroing? && ResetCalls(h, i, c, removed, quiet) && Faithful(v, h, a, agreed)
    requires c.action == a ==> quiet && (c.wiped ==> removed == Held(v, h, a))
    ensures Faithful(v, i, a, agreed)
  {
    hide Faithful, Held;
    var s := ResetSteps(h, i, c, removed);
    assert i == h + s && s[..1] == [s[0]];
    FaithfulPost(v, h, s[0], a, agreed);
    if |s| > 1 {
      FaithfulPost(v, h + s[..1], s[1], a, agreed);
      assert h + s[..2] == h + s[..1] + [s[1]];
    }
    if |s| > 2 {
      FaithfulPost(v, h + s[..2], s[2], a, agreed);
      assert h + s[..3] == h + s[..2] + [s[2]];
    }
    assert s[..|s|] == s;
  }

  // ---------- the daemon's own log ----------

  datatype Notice = Unavailable | IsBack

  /** Outages and recoveries are reported in turn, beginning with an outage. */
  predicate Alternating(log: seq<Notice>) {
    forall i :: 0 <= i < |log| ==> log[i] == if i % 2 == 0 then Unavailable else IsBack
  }

  /** New notices were only appended, and a recovery among them had an answer from Redis. */
  predicate Reporting(before: seq<Notice>, after: seq<Notice>, answered: bool) {
    && before <= after
    && (IsBack in after[|before|..] ==> answered)
  }

  lemma ReportingGrows(before: seq<Notice>, after: seq<Notice>, answered: bool)
    requires Reporting(before, after, answered)
    ensures before <= after
  {
  }

  lemma LogsNothing(log: seq<Notice>)
    ensures Reporting(log, log, false)
  {
  }

  lemma ReportsLess(before: seq<Notice>, after: seq<Notice>, answered: bool)
    requires Reporting(before, after, false)
    ensures Reporting(before, after, answered)
  {
  }

  lemma ReportsMore(before: seq<Notice>, after: seq<Notice>, first: bool, answered: bool)
    requires Reporting(before, after, first) && (first ==> answered)
    ensures Reporting(before, after, answered)
  {
  }

  lemma ReportingOn(a: seq<Notice>, b: seq<Notice>, c: seq<Notice>, first: bool, second: bool)
    requires Reporting(a, b, first) && Reporting(b, c, second)
    ensures Reporting(a, c, first || second)
  {
    assert c[|a|..] == b[|a|..] + c[|b|..];
  }

  /** What the end of a flush adds to the log: the failed refresh, if it is news, and the recovery, if
      all writes before it had succeeded.  Both at once means that an outage is reported and withdrawn
      on the spot, which is the case exactly when only the refresh failed. */
  function EndNotices(down: bool, alarm: bool, fine: bool): (r: seq<Notice>)
    ensures r == [Unavailable, IsBack] <==> !down && alarm && fine
    ensures IsBack in r <==> fine && (down || alarm)
  {
    (if alarm && !down then [Unavailable] else []) + (if fine && (down || alarm) then [IsBack] else [])
  }

  lemma EndReporting(before: seq<Notice>, down: bool, alarm: bool, fine: bool)
    ensures Reporting(before, before + EndNotices(down, alarm, fine), fine)
  {
  }

  // ---------- one pass of a flush over the actions ----------

  /** Unless others interfered, the counter moved by exactly `delta`. */
  predicate Moved(x: Account, y: Account, delta: int) {
    Later(x, y) && (Quiet(x, y) ==> Val(y.counter) == Val(x.counter) + delta && y.erased == x.erased)
  }

  /** Unless others interfered, everything the counter held is now among what has been erased. */
  predicate ZeroedFrom(x: Account, y: Account) {
    Later(x, y) && (Quiet(x, y) ==> Val(y.counter) == 0 && y.erased == x.erased + Val(x.counter))
  }

  /** What a flush without errors does to an action: a pending reset first, then the increments. */
  predicate Flushed(x: Account, y: Account, inReset: bool, delta: int) {
    && Later(x, y)
    && (inReset && Quiet(x, y) ==> Val(y.counter) == delta && y.erased == x.erased + Val(x.counter))
    && (!inReset ==> Moved(x, y, delta))
  }

  /** What the daemon remembers: totals to report, resets to carry out, increments in hand. */
  datatype Mind = Mind(totals: map<string, int>, resets: set<string>, hold: map<string, int>)

  /** The two states a pass over the actions starts from and has reached, and the increments set
      aside so far to be put back. */
  datatype Pass = Pass(g0: Books, m0: Mind, g: Books, m: Mind, unwritten: map<string, int>, errs: int)

  /** What became of one action that a flush tried, by the latest call about it: without an error nothing
      is left to do, and otherwise exactly what that call was to do is left, and what comes after it.
      `left` are the increments that go back to the buffer. */
  predicate Outcome(last: Option<Call>, x: Account, y: Account, inReset: bool, total: Option<int>, delta: int,
                    inReset': bool, total': Option<int>, left: int) {
    match last
    case None => !inReset && total.None? && delta == 0 && AllDone(x, y, inReset, delta, inReset', total', left)
    case Some(c) =>
      if ErrorOf(c).None? then AllDone(x, y, inReset, delta, inReset', total', left)
      else
        match c
        case Zeroing(_, _, _) => inReset && inReset' && total' == total && left == delta
        case Increment(_, _, _, _) => 0 < delta == left && !inReset' && total' == if inReset then None else total
        case Report(_, _, _, _, _) => !inReset' && total'.Some? && left == 0 && Flushed(x, y, inReset, delta)
        case _ => false
  }

  predicate AllDone(x: Account, y: Account, inReset: bool, delta: int, inReset': bool, total': Option<int>, left: int) {
    !inReset' && total'.None? && left == 0 && Flushed(x, y, inReset, delta)
  }

  /** The outcome of the calls about `a` between two states of the books, and the error that was noted. */
  predicate CameTo(a: string, g: Books, h: Books, inReset: bool, total: Option<int>, delta: int,
                   inReset': bool, total': Option<int>, left: int, error: Option<Error>) {
    && a in g.book && a in h.book
    && Outcome(LastOf(h.calls, |g.calls|, a), g.book[a], h.book[a], inReset, total, delta, inReset', total', left)
    && error == LastError(g, h, a)
  }

  function LastError(g: Books, h: Books, a: string): Option<Error> {
    var last := LastOf(h.calls, |g.calls|, a);
    if last.Some? then ErrorOf(last.value) else None
  }

  predicate IncrementEnds(g: Books, h: Books, a: string, error: Option<Error>) {
    var last := LastOf(h.calls, |g.calls|, a);
    last.Some? && last.value.Increment? && last.value.error == error
  }

  predicate ReportEnds(g: Books, h: Books, a: string, error: Option<Error>) {
    var last := LastOf(h.calls, |g.calls|, a);
    last.Some? && last.value.Report? && last.value.error == error
  }

  predicate ZeroingEnds(g: Books, h: Books, a: string, error: Option<Error>) {
    var last := LastOf(h.calls, |g.calls|, a);
    last.Some? && last.value.Zeroing? && last.value.error == error
  }

  lemma ResetEnds(g: Books, h: Books, c: Call, removed: int, quiet: bool)
    requires c.Zeroing? && ResetCalls(g.calls, h.calls, c, removed, quiet)
    ensures ZeroingEnds(g, h, c.action, c.error)
  {
  }

  lemma NothingCame(g: Books, a: string)
    requires a in g.book
    ensures CameTo(a, g, g, false, None, 0, false, None, 0, None)
  {
  }

  lemma IncrementFails(a: string, g: Books, h: Books, total: Option<int>, delta: int, error: Error)
    requires a in g.book && a in h.book && 0 < delta && IncrementEnds(g, h, a, Some(error))
    ensures CameTo(a, g, h, false, total, delta, false, total, delta, Some(error))
  {
  }

  /** The increments are in Redis, if there were any, and now the total is reported, if it is to be. */
  lemma ReportCame(e: Env, a: string, g: Books, m: Books, h: Books, total: Option<int>, delta: int, total': Option<int>,
                   error: Option<Error>)
    requires a in g.book && a in m.book && a in h.book && Worked(e, g, m, a) && Worked(e, m, h, a)
    requires if delta > 0 then IncrementEnds(g, m, a, None) else m == g
    requires (delta > 0 && error.None? && h == m) || ReportEnds(m, h, a, error)
    requires Moved(g.book[a], h.book[a], delta) && 0 <= delta && (total'.None? <==> error.None?)
    ensures CameTo(a, g, h, false, total, delta, false, total', 0, error)
  {
    hide Onward, Aside, HandsOff, Val, Quiet;
    LastOfTwo(m.calls, h.calls, |g.calls|, a);
  }

  lemma ResetFails(a: string, g: Books, h: Books, total: Option<int>, delta: int, error: Error)
    requires a in g.book && a in h.book && ZeroingEnds(g, h, a, Some(error))
    ensures CameTo(a, g, h, true, total, delta, true, total, delta, Some(error))
  {
  }

  /** A pending reset was carried out first. */
  lemma ResetThenCame(e: Env, a: string, g: Books, m: Books, h: Books, total: Option<int>, delta: int,
                      total': Option<int>, left: int, error: Option<Error>)
    requires Worked(e, g, m, a) && Worked(e, m, h, a) && a in g.book && ZeroingEnds(g, m, a, None)
    requires CameTo(a, m, h, false, None, delta, false, total', left, error)
    requires ZeroedFrom(g.book[a], m.book[a])
    ensures CameTo(a, g, h, true, total, delta, false, total', left, error)
  {
    hide Onward, Aside, HandsOff;
    LastOfTwo(m.calls, h.calls, |g.calls|, a);
  }

  predicate HasWork(a: string, m: Mind) {
    Get(m.hold, a) > 0 || a in m.totals || a in m.resets
  }

  predicate WorkIn(actions: seq<string>, m: Mind) {
    exists a :: a in actions && HasWork(a, m)
  }

  predicate Untouched(a: string, p: Pass) {
    && a in p.g0.book && a in p.g.book
    && (a in p.m.resets <==> a in p.m0.resets)
    && Lookup(p.m.totals, a) == Lookup(p.m0.totals, a)
    && Get(p.m.hold, a) == Get(p.m0.hold, a)
    && a !in p.unwritten
    && Moved(p.g0.book[a], p.g.book[a], 0)
  }

  predicate Finished(a: string, p: Pass) {
    && a in p.g0.book && a in p.g.book
    && Get(p.m.hold, a) == Get(p.unwritten, a)
    && (p.errs == 0 ==>
      && a !in p.m.resets && a !in p.m.totals && a !in p.unwritten
      && (HasWork(a, p.m0) ==> p.g0.answered < p.g.answered)
      && Flushed(p.g0.book[a], p.g.book[a], a in p.m0.resets, Get(p.m0.hold, a)))
  }

  ghost predicate Progress(actions: seq<string>, i: nat, p: Pass) {
    && (forall j :: 0 <= j < i <= |actions| ==> Finished(actions[j], p))
    && (forall j :: i <= j < |actions| ==> Untouched(actions[j], p))
  }

  /** What is remembered about, held of and set aside for other actions does not change. */
  ghost predicate ElsewhereSame(a: string, p: Pass, q: Pass) {
    && q.g0 == p.g0 && q.m0 == p.m0
    && p.m.resets - {a} == q.m.resets - {a}
    && (forall b :: b != a ==> Lookup(p.m.totals, b) == Lookup(q.m.totals, b))
    && (forall b :: b != a ==> Lookup(p.m.hold, b) == Lookup(q.m.hold, b))
    && (forall b :: b != a ==> Lookup(p.unwritten, b) == Lookup(q.unwritten, b))
  }

  lemma FinishedStays(e: Env, a: string, b: string, p: Pass, q: Pass)
    requires Finished(b, p) && b != a && ElsewhereSame(a, p, q) && Worked(e, p.g, q.g, a)
    requires q.errs == 0 ==> p.errs == 0
    ensures Finished(b, q)
  {
    assert b in p.m.resets - {a} <==> b in q.m.resets - {a};
    assert Lookup(p.m.totals, b) == Lookup(q.m.totals, b);
    assert Lookup(p.m.hold, b) == Lookup(q.m.hold, b);
    assert Lookup(p.unwritten, b) == Lookup(q.unwritten, b);
    assert Aside(e, p.g.book[b], q.g.book[b]);
  }

  lemma UntouchedStays(e: Env, a: string, b: string, p: Pass, q: Pass)
    requires Untouched(b, p) && b != a && ElsewhereSame(a, p, q) && Worked(e, p.g, q.g, a)
    ensures Untouched(b, q)
  {
    assert b in p.m.resets - {a} <==> b in q.m.resets - {a};
    assert Lookup(p.m.totals, b) == Lookup(q.m.totals, b);
    assert Lookup(p.m.hold, b) == Lookup(q.m.hold, b);
    assert Lookup(p.unwritten, b) == Lookup(q.unwritten, b);
    assert Aside(e, p.g.book[b], q.g.book[b]);
  }

  /** An action whose call succeeded is finished. */
  lemma FinishedWell(a: string, p: Pass, q: Pass)
    requires Untouched(a, p) && a in q.g.book && q.g0 == p.g0 && q.m0 == p.m0
    requires q.m.hold == p.m.hold - {a} && q.unwritten == p.unwritten && p.g0.answered <= p.g.answered <= q.g.answered
    requires a !in q.m.totals && a !in q.m.resets
    requires HasWork(a, p.m) ==> p.g.answered < q.g.answered
    requires Flushed(p.g.book[a], q.g.book[a], a in p.m.resets, Get(p.m.hold, a))
    ensures Finished(a, q)
  {
    assert a in p.m.totals <==> a in p.m0.totals by {
      assert Lookup(p.m.totals, a) == Lookup(p.m0.totals, a);
    }
  }

  /** An action whose call failed or was not made is finished too: what is still in hand is set aside. */
  lemma FinishedBadly(a: string, p: Pass, q: Pass, retry: bool)
    requires Untouched(a, p) && a in q.g.book && q.g0 == p.g0 && q.m0 == p.m0 && q.errs > 0
    requires q.m.hold == (if retry then p.m.hold else p.m.hold - {a}) && Get(p.m.hold, a) >= 0
    requires q.unwritten == if retry && Get(p.m0.hold, a) > 0 then p.unwritten[a := Get(p.m0.hold, a)] else p.unwritten
    ensures Finished(a, q)
  {
  }

  lemma ElsewhereKept(a: string, p: Pass, q: Pass)
    requires q.g0 == p.g0 && q.m0 == p.m0 && p.m.resets - {a} == q.m.resets - {a}
    requires forall b :: b != a ==> Lookup(p.m.totals, b) == Lookup(q.m.totals, b)
    requires q.m.hold == p.m.hold || q.m.hold == p.m.hold - {a}
    requires q.unwritten == p.unwritten || (a in q.unwritten && q.unwritten == p.unwritten[a := q.unwritten[a]])
    ensures ElsewhereSame(a, p, q)
  {
  }

  lemma NextInPass(actions: seq<string>, i: nat, p: Pass)
    requires Progress(actions, i, p) && i < |actions|
    ensures Untouched(actions[i], p) && Get(p.m.hold, actions[i]) == Get(p.m0.hold, actions[i])
  {
  }

  /** Before the first action none is touched; after the last one all are finished, and what is
      still in hand is exactly what was set aside. */
  lemma NoneTouched(actions: seq<string>, p: Pass)
    requires p.g == p.g0 && p.m == p.m0 && p.unwritten == map[]
    requires forall a :: a in actions ==> a in p.g.book
    ensures Progress(actions, 0, p)
  {
  }

  lemma SetAside(actions: seq<string>, p: Pass)
    requires Progress(actions, |actions|, p)
    requires forall a :: a in p.m.hold ==> p.m.hold[a] > 0 && a in actions
    requires forall a :: a in p.unwritten ==> p.unwritten[a] > 0 && a in actions
    ensures p.m.hold == p.unwritten
  {
    forall a | a in actions
      ensures Get(p.m.hold, a) == Get(p.unwritten, a)
    {
      var j :| 0 <= j < |actions| && actions[j] == a;
      assert Finished(actions[j], p);
    }
    assert p.m.hold.Keys == p.unwritten.Keys by {
      forall a
        ensures a in p.m.hold <==> a in p.unwritten
      {
        if a in p.m.hold || a in p.unwritten {
          assert Get(p.m.hold, a) == Get(p.unwritten, a);
        }
      }
    }
    forall a | a in p.m.hold
      ensures p.m.hold[a] == p.unwritten[a]
    {
      assert Get(p.m.hold, a) == Get(p.unwritten, a);
    }
  }

  /** Finishing one action leaves the finished ones finished and the others untouched. */
  lemma OneMoreFinished(e: Env, actions: seq<string>, i: nat, p: Pass, q: Pass)
    requires Distinct(actions) && i < |actions| && Progress(actions, i, p)
    requires ElsewhereSame(actions[i], p, q) && Worked(e, p.g, q.g, actions[i])
    requires q.errs == 0 ==> p.errs == 0
    requires Finished(actions[i], q)
    ensures Progress(actions, i + 1, q)
  {
    hide Finished, Untouched, ElsewhereSame, Worked;
    forall j | 0 <= j < i
      ensures Finished(actions[j], q)
    {
      FinishedStays(e, actions[i], actions[j], p, q);
    }
    forall j | i < j < |actions|
      ensures Untouched(actions[j], q)
    {
      UntouchedStays(e, actions[i], actions[j], p, q);
    }
  }

  // ---------- which actions a pass has tried, and what became of them ----------

  predicate Attended(a: string, p: Pass) {
    CameTo(a, p.g0, p.g, a in p.m0.resets, Lookup(p.m0.totals, a), Get(p.m0.hold, a),
           a in p.m.resets, Lookup(p.m.totals, a), Get(p.m.hold, a), LastError(p.g0, p.g, a))
  }

  /** No call about the action was made, and everything remembered about it still is. */
  predicate PassedOver(a: string, p: Pass) {
    && a in p.g0.book && a in p.g.book
    && LastOf(p.g.calls, |p.g0.calls|, a).None?
    && (a in p.m.resets <==> a in p.m0.resets)
    && Lookup(p.m.totals, a) == Lookup(p.m0.totals, a) && Get(p.m.hold, a) == Get(p.m0.hold, a)
    && Moved(p.g0.book[a], p.g.book[a], 0)
  }

  predicate Fails(a: string, p: Pass) {
    LastError(p.g0, p.g, a).Some?
  }

  predicate Stops(a: string, p: Pass) {
    OutOfReach(LastError(p.g0, p.g, a))
  }

  /** The first `n` actions have been tried, whatever became of the others, and the rest not at all. */
  ghost predicate Reached(actions: seq<string>, n: nat, p: Pass) {
    && n <= |actions| && |p.g0.calls| <= |p.g.calls|
    && (forall j :: 0 <= j < n ==> Attended(actions[j], p))
    && (forall j :: n <= j < |actions| ==> PassedOver(actions[j], p))
    && (forall j :: 0 <= j < n - 1 ==> !Stops(actions[j], p))
    && (p.errs > 0 <==> exists j :: 0 <= j < n && Fails(actions[j], p))
  }

  /** The last action tried found Redis out of reach. */
  predicate Stopped(actions: seq<string>, n: nat, p: Pass) {
    0 < n <= |actions| && Stops(actions[n - 1], p)
  }

  lemma NoneReached(actions: seq<string>, p: Pass)
    requires p.g == p.g0 && p.m == p.m0 && p.errs == 0 && forall a :: a in actions ==> a in p.g.book
    ensures Reached(actions, 0, p)
  {
  }

  lemma OneMoreTried(e: Env, actions: seq<string>, i: nat, p: Pass, q: Pass)
    requires Distinct(actions) && i < |actions| && Reached(actions, i, p) && !Stopped(actions, i, p)
    requires ElsewhereSame(actions[i], p, q) && Worked(e, p.g, q.g, actions[i]) && Attended(actions[i], q)
    requires q.g0 == p.g0 && p.errs <= q.errs && (q.errs > 0 <==> p.errs > 0 || Fails(actions[i], q))
    ensures Reached(actions, i + 1, q)
  {
    hide Attended, PassedOver, ElsewhereSame, Worked, Fails, Stops;
    WorkGrows(e, p.g, q.g, actions[i]);
    forall j | 0 <= j < |actions| && j != i
      ensures j < i ==> Attended(actions[j], q)
      ensures j > i ==> PassedOver(actions[j], q)
      ensures j < i ==> (Fails(actions[j], q) <==> Fails(actions[j], p))
      ensures j < i ==> (Stops(actions[j], q) <==> Stops(actions[j], p))
    {
      if j < i {
        AttendedStays(e, actions[i], actions[j], p, q);
      } else {
        PassedOverStays(e, actions[i], actions[j], p, q);
      }
    }
  }

  lemma WorkGrows(e: Env, g: Books, h: Books, a: string)
    requires Worked(e, g, h, a)
    ensures g.calls <= h.calls && |g.calls| <= |h.calls|
  {
  }

  lemma AttendedStays(e: Env, a: string, b: string, p: Pass, q: Pass)
    requires Attended(b, p) && b != a && ElsewhereSame(a, p, q) && Worked(e, p.g, q.g, a) && |p.g0.calls| <= |p.g.calls|
    ensures Attended(b, q) && (Fails(b, q) <==> Fails(b, p)) && (Stops(b, q) <==> Stops(b, p))
  {
    LastOfElsewhere(p.g.calls, q.g.calls, |p.g0.calls|, a, b);
    assert b in p.m.resets - {a} <==> b in q.m.resets - {a};
    assert Lookup(p.m.totals, b) == Lookup(q.m.totals, b);
    assert Lookup(p.m.hold, b) == Lookup(q.m.hold, b);
    assert Aside(e, p.g.book[b], q.g.book[b]);
  }

  lemma PassedOverStays(e: Env, a: string, b: string, p: Pass, q: Pass)
    requires PassedOver(b, p) && b != a && ElsewhereSame(a, p, q) && Worked(e, p.g, q.g, a)
    requires |p.g0.calls| <= |p.g.calls|
    ensures PassedOver(b, q)
  {
    LastOfElsewhere(p.g.calls, q.g.calls, |p.g0.calls|, a, b);
    assert b in p.m.resets - {a} <==> b in q.m.resets - {a};
    assert Lookup(p.m.totals, b) == Lookup(q.m.totals, b);
    assert Lookup(p.m.hold, b) == Lookup(q.m.hold, b);
    assert Aside(e, p.g.book[b], q.g.book[b]);
  }

  lemma NotTriedYet(actions: seq<string>, i: nat, p: Pass)
    requires Reached(actions, i, p) && i < |actions|
    ensures PassedOver(actions[i], p) && |p.g0.calls| <= |p.g.calls|
  {
  }

  /** What a try comes to, seen from the beginning of the pass. */
  lemma AttendedNow(e: Env, a: string, p: Pass, q: Pass, error: Option<Error>)
    requires PassedOver(a, p) && q.g0 == p.g0 && q.m0 == p.m0 && Worked(e, p.g, q.g, a) && |p.g0.calls| <= |p.g.calls|
    requires CameTo(a, p.g, q.g, a in p.m.resets, Lookup(p.m.totals, a), Get(p.m.hold, a),
                    a in q.m.resets, Lookup(q.m.totals, a), Get(q.m.hold, a), error)
    ensures Attended(a, q) && LastError(q.g0, q.g, a) == error
    ensures (Fails(a, q) <==> error.Some?) && (Stops(a, q) <==> OutOfReach(error))
  {
    LastOfTwo(p.g.calls, q.g.calls, |p.g0.calls|, a);
  }

  /** Setting increments aside is no try. */
  lemma OneMoreSkipped(actions: seq<string>, n: nat, p: Pass, q: Pass)
    requires Reached(actions, n, p) && q == p.(unwritten := q.unwritten)
    ensures Reached(actions, n, q) && Stopped(actions, n, q) == Stopped(actions, n, p)
  {
    forall j | 0 <= j < |actions|
      ensures Attended(actions[j], p) ==> Attended(actions[j], q)
      ensures PassedOver(actions[j], p) ==> PassedOver(actions[j], q)
      ensures Fails(actions[j], p) <==> Fails(actions[j], q)
      ensures Stops(actions[j], p) <==> Stops(actions[j], q)
    {
    }
  }

  /** A pass that has tried everything it is going to try. */
  ghost predicate PassOver(actions: seq<string>, n: nat, p: Pass) {
    Reached(actions, n, p) && (n < |actions| ==> Stopped(actions, n, p))
  }

  /** What happens after the pass concerns no action in particular. */
  lemma PassRests(e: Env, actions: seq<string>, n: nat, p: Pass, q: Pass)
    requires PassOver(actions, n, p) && Rested(e, p.g, q.g) && q == p.(g := q.g, m := q.m)
    requires q.m.totals == p.m.totals && q.m.resets == p.m.resets && forall a :: Get(q.m.hold, a) == Get(p.m.hold, a)
    ensures PassOver(actions, n, q) && Stopped(actions, n, q) == Stopped(actions, n, p)
  {
    hide Attended, PassedOver, Fails, Stops, Rested, Lookup;
    RestedCalls(e, p.g, q.g);
    forall j | 0 <= j < |actions|
      ensures Attended(actions[j], p) ==> Attended(actions[j], q)
      ensures PassedOver(actions[j], p) ==> PassedOver(actions[j], q)
      ensures Fails(actions[j], p) <==> Fails(actions[j], q)
      ensures Stops(actions[j], p) <==> Stops(actions[j], q)
    {
      ActionRests(e, actions[j], p, q);
    }
  }

  lemma RestedCalls(e: Env, g: Books, h: Books)
    requires Rested(e, g, h)
    ensures h.calls == g.calls
  {
  }

  lemma ActionRests(e: Env, a: string, p: Pass, q: Pass)
    requires Rested(e, p.g, q.g) && q == p.(g := q.g, m := q.m)
    requires q.m.totals == p.m.totals && q.m.resets == p.m.resets && Get(q.m.hold, a) == Get(p.m.hold, a)
    ensures Attended(a, p) ==> Attended(a, q)
    ensures PassedOver(a, p) ==> PassedOver(a, q)
    ensures (Fails(a, p) <==> Fails(a, q)) && (Stops(a, p) <==> Stops(a, q))
  {
    hide Outcome, Moved;
    if a in p.g0.book && a in p.g.book {
      assert Aside(e, p.g.book[a], q.g.book[a]);
      MovedStays(e, p.g0.book[a], p.g.book[a], q.g.book[a], 0);
      OutcomeStays(e, LastOf(p.g.calls, |p.g0.calls|, a), p.g0.book[a], p.g.book[a], q.g.book[a], a in p.m0.resets,
                   Lookup(p.m0.totals, a), Get(p.m0.hold, a), a in p.m.resets, Lookup(p.m.totals, a), Get(p.m.hold, a));
    }
  }

  lemma MovedStays(e: Env, x: Account, y: Account, z: Account, delta: int)
    requires Aside(e, y, z)
    ensures Moved(x, y, delta) ==> Moved(x, z, delta)
  {
  }

  lemma OutcomeStays(e: Env, last: Option<Call>, x: Account, y: Account, z: Account, inReset: bool, total: Option<int>,
                     delta: int, inReset': bool, total': Option<int>, left: int)
    requires Aside(e, y, z)
    ensures Outcome(last, x, y, inReset, total, delta, inReset', total', left) ==>
              Outcome(last, x, z, inReset, total, delta, inReset', total', left)
  {
    hide ErrorOf;
  }

  /** Two accounts of the same pass: seen from an earlier moment, or with the amounts kept differently. */
  predicate SamePass(actions: seq<string>, p: Pass, q: Pass) {
    && StandsStill(q.g0, p.g0) && q.g0.calls == p.g0.calls && q.g == p.g && (q.errs > 0 <==> p.errs > 0)
    && q.m0.totals == p.m0.totals && q.m0.resets == p.m0.resets
    && q.m.totals == p.m.totals && q.m.resets == p.m.resets
    && forall a :: a in actions ==> Get(q.m0.hold, a) == Get(p.m0.hold, a) && Get(q.m.hold, a) == Get(p.m.hold, a)
  }

  lemma PassSeen(actions: seq<string>, n: nat, p: Pass, q: Pass)
    requires PassOver(actions, n, p) && SamePass(actions, p, q)
    ensures PassOver(actions, n, q) && Stopped(actions, n, q) == Stopped(actions, n, p)
  {
    hide Attended, PassedOver, Fails, Stops, Lookup, StandsStill, SamePass;
    SamePassCalls(actions, p, q);
    forall j | 0 <= j < |actions|
      ensures Attended(actions[j], p) ==> Attended(actions[j], q)
      ensures PassedOver(actions[j], p) ==> PassedOver(actions[j], q)
      ensures Fails(actions[j], p) <==> Fails(actions[j], q)
      ensures Stops(actions[j], p) <==> Stops(actions[j], q)
    {
      ActionSeen(actions, actions[j], p, q);
    }
  }

  lemma SamePassCalls(actions: seq<string>, p: Pass, q: Pass)
    requires SamePass(actions, p, q)
    ensures q.g0.calls == p.g0.calls && q.g == p.g && (q.errs > 0 <==> p.errs > 0)
  {
  }

  lemma ActionSeen(actions: seq<string>, a: string, p: Pass, q: Pass)
    requires SamePass(actions, p, q) && a in actions
    ensures Attended(a, p) ==> Attended(a, q)
    ensures PassedOver(a, p) ==> PassedOver(a, q)
    ensures (Fails(a, p) <==> Fails(a, q)) && (Stops(a, p) <==> Stops(a, q))
  {
  }

  lemma WorkSeen(actions: seq<string>, m: Mind, l: Mind)
    requires l.totals == m.totals && l.resets == m.resets
    requires forall a :: a in actions ==> Get(l.hold, a) == Get(m.hold, a)
    ensures WorkIn(actions, l) == WorkIn(actions, m)
  {
    hide Get;
    forall a | a in actions
      ensures HasWork(a, l) == HasWork(a, m)
    {
    }
  }

  /** A flush with nothing to do passes over all the actions, and comes to that. */
  lemma IdleOver(actions: seq<string>, p: Pass)
    requires StandsStill(p.g0, p.g) && p.g.calls == p.g0.calls && p.errs == 0
    requires p.m0 == Mind(map[], {}, map[]) && p.m == Mind(map[], {}, map[])
    requires forall a :: a in actions ==> a in p.g0.book
    ensures PassOver(actions, |actions|, p) && !WorkIn(actions, p.m0) && !Stopped(actions, |actions|, p)
    ensures AllFlushed(p.g0, p.g, {}, map[])
    ensures forall a :: Get(p.m.hold, a) == 0
  {
    hide StandsStill, AllFlushed;
    IdlePass(actions, p);
    NothingFlushed(p.g0, p.g, map[]);
  }

  /** A pass with nothing to do has tried everything at once. */
  lemma IdlePass(actions: seq<string>, p: Pass)
    requires StandsStill(p.g0, p.g) && p.g.calls == p.g0.calls && p.errs == 0
    requires p.m0.totals == map[] && p.m0.resets == {} && p.m.totals == map[] && p.m.resets == {}
    requires forall a :: a in actions ==> a in p.g0.book && Get(p.m0.hold, a) == 0 && Get(p.m.hold, a) == 0
    ensures PassOver(actions, |actions|, p) && !Stopped(actions, |actions|, p)
  {
    forall j | 0 <= j < |actions|
      ensures Attended(actions[j], p) && !Fails(actions[j], p) && !Stops(actions[j], p)
    {
    }
  }

  /** So what a flush says comes to one notice of each kind at most. */
  lemma FullNotices(log: seq<Notice>, down: bool, first: bool, second: bool, fine: bool)
    requires fine ==> !first
    ensures log + EndNotices(down, first, false) + EndNotices(down || first, second, fine)
         == log + EndNotices(down, first || second, fine)
  {
  }

  /** A pass without errors has done all the work there was. */
  lemma AllFinished(actions: seq<string>, p: Pass)
    requires Progress(actions, |actions|, p) && p.errs == 0
    requires p.m.totals.Keys <= Elements(actions) && p.m.resets <= Elements(actions)
    requires forall a :: a in p.unwritten ==> a in actions
    ensures p.m.totals == map[] && p.m.resets == {} && p.unwritten == map[]
    ensures forall a :: a in actions && HasWork(a, p.m0) ==> p.g0.answered < p.g.answered
  {
    hide Flushed, HasWork, Get;
    forall a | a in actions
      ensures Finished(a, p)
    {
      var j :| 0 <= j < |actions| && actions[j] == a;
      assert Finished(actions[j], p);
    }
    assert p.m.totals.Keys == {} && p.unwritten.Keys == {};
  }

  /** The counters after a pass without errors. */
  lemma PassFlushed(actions: seq<string>, p: Pass)
    requires Progress(actions, |actions|, p) && p.errs == 0 && p.g0.book.Keys == Elements(actions)
    ensures AllFlushed(p.g0, p.g, p.m0.resets, p.m0.hold)
  {
    hide Flushed, HasWork, Get;
    forall a | a in p.g0.book
      ensures a in p.g.book && Flushed(p.g0.book[a], p.g.book[a], a in p.m0.resets, Get(p.m0.hold, a))
    {
      var j :| 0 <= j < |actions| && actions[j] == a;
      assert Finished(actions[j], p);
    }
  }

  // ---------- what the bootstrap and the refresh leave alone ----------

  /** No counter moved, unless somebody else moved it. */
  predicate StandsStill(g: Books, h: Books) {
    g.book.Keys == h.book.Keys && forall a :: a in g.book ==> Moved(g.book[a], h.book[a], 0)
  }

  lemma RestedStands(e: Env, g: Books, h: Books)
    requires Rested(e, g, h)
    ensures StandsStill(g, h)
  {
    forall a | a in g.book
      ensures Moved(g.book[a], h.book[a], 0)
    {
      assert Aside(e, g.book[a], h.book[a]);
    }
  }

  lemma DriftStands(e: Env, g: Books, h: Books)
    requires Drift(e, g, h)
    ensures StandsStill(g, h)
  {
    hide Rested, StandsStill, Drift;
    DriftRests(e, g, h);
    RestedStands(e, g, h);
  }

  lemma BootedStands(e: Env, g: Books, h: Books)
    requires AllBooted(e, g, h)
    ensures StandsStill(g, h)
  {
    forall a | a in g.book
      ensures Moved(g.book[a], h.book[a], 0)
    {
      assert Booted(e, g.book[a], h.book[a]);
    }
  }

  lemma StandsNowhere(g: Books)
    ensures StandsStill(g, g)
  {
  }

  lemma StandsOn(g: Books, h: Books, i: Books)
    requires StandsStill(g, h) && StandsStill(h, i)
    ensures StandsStill(g, i)
  {
  }

  /** A flush without errors, for every action: the pending reset first, then what was drained. */
  predicate AllFlushed(g: Books, h: Books, resets: set<string>, drained: map<string, int>) {
    forall a :: a in g.book ==> a in h.book && Flushed(g.book[a], h.book[a], a in resets, Get(drained, a))
  }

  /** Before and after a flush the counters may only stand still. */
  lemma FlushedWithin(g: Books, h: Books, i: Books, j: Books, resets: set<string>, drained: map<string, int>,
                      same: map<string, int>)
    requires StandsStill(g, h) && StandsStill(i, j) && AllFlushed(h, i, resets, drained)
    requires forall a :: Get(drained, a) == Get(same, a)
    ensures AllFlushed(g, j, resets, same)
  {
  }

  lemma NothingFlushed(g: Books, h: Books, drained: map<string, int>)
    requires StandsStill(g, h) && forall a :: Get(drained, a) == 0
    ensures AllFlushed(g, h, {}, drained)
  {
  }

  // ---------- the expiry of the keys ----------

  /** With a ttl every key is safe for a full ttl from the beginning, and none lacks an expiry. */
  ghost predicate Renewed(e: Env, g: Books, h: Books) {
    e.ttl > 0 ==> h.touched && g.now + e.ttl <= h.freshUntil && NoneBare(h)
  }

  lemma RenewedSince(e: Env, g: Books, m: Books, h: Books)
    requires Onward(e, g, m) && Renewed(e, m, h)
    ensures Renewed(e, g, h)
  {
  }

  /** The refresh of a part of an operation is one of the whole. */
  lemma RefreshedOrMissed(e: Env, g: Books, m: Books, h: Books)
    requires Onward(e, g, m) && (Renewed(e, m, h) || m.missed < h.missed)
    ensures Renewed(e, g, h) || g.missed < h.missed
  {
  }

  /** The keys have been refreshed, or a refresh failed, or Redis was out of reach. */
  ghost predicate Freshened(e: Env, g: Books, h: Books) {
    e.ttl == 0 || Renewed(e, g, h) || g.missed < h.missed || g.outages < h.outages
  }

  lemma StaysFreshened(e: Env, g: Books, h: Books, i: Books)
    requires Freshened(e, g, h) && Onward(e, h, i) && h.outages <= i.outages
    requires i.touched == h.touched && i.freshUntil == h.freshUntil && (NoneBare(h) ==> NoneBare(i))
    ensures Freshened(e, g, i)
  {
  }

  lemma StaysRenewed(e: Env, g: Books, h: Books, i: Books)
    requires Renewed(e, g, h) && i.touched == h.touched && i.freshUntil == h.freshUntil && (NoneBare(h) ==> NoneBare(i))
    ensures Renewed(e, g, i)
  {
  }

  /** Only time and other processes can have changed the expiry of a key in between, or a SET, if the
      expiry is switched off and the keys had been bootstrapped before. */
  predicate Along(e: Env, g: Books, h: Books, ready: bool) {
    && Onward(e, g, h)
    && (ready && e.ttl == 0 ==>
      && h.touched == g.touched
      && forall a :: a in g.book ==> Unrenewed(g.book[a], h.book[a]))
  }

  lemma AlongOn(e: Env, g: Books, h: Books, i: Books, first: bool, second: bool)
    requires Along(e, g, h, first) && Along(e, h, i, second)
    ensures Along(e, g, i, first && second) && Along(e, g, i, false)
    ensures Onward(e, g, h) && Onward(e, g, i) && h.book.Keys == g.book.Keys == i.book.Keys
  {
    hide Onward;
    OnwardOn(e, g, h, i);
  }

  lemma AlongNowhere(e: Env, g: Books)
    ensures Along(e, g, g, true)
  {
  }

  lemma AlongIsOnward(e: Env, g: Books, h: Books, ready: bool)
    requires Along(e, g, h, ready)
    ensures Onward(e, g, h) && Along(e, g, h, false) && h.book.Keys == g.book.Keys && (g.touched ==> h.touched)
  {
  }

  lemma WorkAlong(e: Env, g: Books, h: Books, a: string)
    requires Worked(e, g, h, a)
    ensures Along(e, g, h, true)
  {
    hide Late, Aside;
  }

  lemma DriftAlong(e: Env, g: Books, h: Books)
    requires Drift(e, g, h)
    ensures Along(e, g, h, true) && h.failures == g.failures && h.outages == g.outages
  {
    hide Late;
    forall a | a in g.book
      ensures Unrenewed(g.book[a], h.book[a])
    {
      assert AccountDrift(e, g.book[a], h.book[a], g.now, h.lastWrite);
    }
  }

  lemma RestAlong(e: Env, g: Books, h: Books)
    requires Rested(e, g, h)
    ensures Along(e, g, h, e.ttl > 0)
  {
    hide Late, Aside;
  }

  // ---------- one pass of a reset over the actions ----------

  /** How far a reset without errors has got: what it has reached is at zero, the rest stands still. */
  ghost predicate Sweeping(actions: seq<string>, i: nat, g0: Books, g: Books, resets: set<string>, totals: map<string,
                           int>) {
    && g.book.Keys == g0.book.Keys && (forall a :: a in actions ==> a in g.book)
    && (forall j :: 0 <= j < i <= |actions| ==> actions[j] !in resets && actions[j] !in totals)
    && (forall j :: 0 <= j < i <= |actions| ==> ZeroedFrom(g0.book[actions[j]], g.book[actions[j]]))
    && (forall j :: i <= j < |actions| ==> Moved(g0.book[actions[j]], g.book[actions[j]], 0))
  }

  lemma NoneSwept(actions: seq<string>, g: Books, resets: set<string>, totals: map<string, int>)
    requires forall a :: a in actions ==> a in g.book
    ensures Sweeping(actions, 0, g, g, resets, totals)
  {
  }

  lemma OneMoreSwept(e: Env, actions: seq<string>, i: nat, g0: Books, g: Books, h: Books,
                     resets: set<string>, resets': set<string>, totals: map<string, int>, totals': map<string, int>)
    requires Distinct(actions) && i < |actions| && Sweeping(actions, i, g0, g, resets, totals)
    requires Worked(e, g, h, actions[i])
    requires h.book.Keys == g.book.Keys && ZeroedFrom(g.book[actions[i]], h.book[actions[i]])
    requires resets' == resets - {actions[i]} && totals' == totals - {actions[i]}
    ensures Sweeping(actions, i + 1, g0, h, resets', totals')
  {
    hide Worked, ZeroedFrom, Moved;
    forall j | 0 <= j < |actions| && j != i
      ensures j < i ==> ZeroedFrom(g0.book[actions[j]], h.book[actions[j]])
      ensures j > i ==> Moved(g0.book[actions[j]], h.book[actions[j]], 0)
    {
      StaysSwept(e, g0.book[actions[j]], g, h, actions[i], actions[j]);
    }
    SweptNow(g0.book[actions[i]], g.book[actions[i]], h.book[actions[i]]);
  }

  lemma StaysSwept(e: Env, x: Account, g: Books, h: Books, a: string, b: string)
    requires Worked(e, g, h, a) && b in g.book && b in h.book && b != a
    ensures ZeroedFrom(x, g.book[b]) ==> ZeroedFrom(x, h.book[b])
    ensures Moved(x, g.book[b], 0) ==> Moved(x, h.book[b], 0)
  {
    assert Aside(e, g.book[b], h.book[b]);
  }

  lemma SweptNow(x: Account, y: Account, z: Account)
    requires Moved(x, y, 0) && ZeroedFrom(y, z)
    ensures ZeroedFrom(x, z)
  {
  }

  // ---------- what became of each action in a pass of resets ----------

  /** The reset of the action was tried: done, or remembered. */
  predicate Zeroed(a: string, p: Pass) {
    && a in p.g0.book && a in p.g.book
    && var last := LastOf(p.g.calls, |p.g0.calls|, a);
    last.Some? && last.value.Zeroing? &&
    if last.value.error.None? then a !in p.m.resets && a !in p.m.totals && AtZero(p.g0.book[a], p.g.book[a])
    else a in p.m.resets
  }

  /** Unless others interfered the counter is at zero. */
  predicate AtZero(x: Account, y: Account) {
    Later(x, y) && (Quiet(x, y) ==> Val(y.counter) == 0)
  }

  /** The reset of the action was not tried, only remembered. */
  predicate Deferred(a: string, p: Pass) {
    && a in p.g0.book && a in p.g.book
    && LastOf(p.g.calls, |p.g0.calls|, a) == Some(Deferral(a)) && a in p.m.resets
  }

  predicate Alarms(a: string, p: Pass) {
    IsAlarm(LastError(p.g0, p.g, a))
  }

  /** Of the first `i` actions `n` were tried, and the others remembered because the last of the `n` found
      Redis out of reach. */
  ghost predicate ResetSoFar(actions: seq<string>, i: nat, n: nat, p: Pass) {
    && n <= i <= |actions| && |p.g0.calls| <= |p.g.calls|
    && (forall j :: 0 <= j < n ==> Zeroed(actions[j], p))
    && (forall j :: n <= j < i ==> Deferred(actions[j], p))
    && (forall j :: 0 <= j < n - 1 ==> !Stops(actions[j], p))
    && (n < i ==> Stopped(actions, n, p))
    && (p.errs > 0 <==> n < i || exists j :: 0 <= j < n && Fails(actions[j], p))
  }

  /** The trouble there was is that of the actions tried. */
  ghost predicate AlarmsSeen(actions: seq<string>, n: nat, p: Pass) {
    && n <= |actions| && p.g0.alarms <= p.g.alarms
    && (p.g0.alarms < p.g.alarms <==> exists j :: 0 <= j < n && Alarms(actions[j], p))
  }

  lemma NoneZeroed(actions: seq<string>, p: Pass)
    requires p.g == p.g0 && p.errs == 0
    ensures ResetSoFar(actions, 0, 0, p) && AlarmsSeen(actions, 0, p)
  {
  }

  lemma ZeroedStays(e: Env, a: string, b: string, p: Pass, q: Pass)
    requires b != a && ElsewhereSame(a, p, q) && Worked(e, p.g, q.g, a) && |p.g0.calls| <= |p.g.calls|
    ensures Zeroed(b, p) ==> Zeroed(b, q)
    ensures Deferred(b, p) ==> Deferred(b, q)
    ensures (Fails(b, q) <==> Fails(b, p)) && (Stops(b, q) <==> Stops(b, p)) && (Alarms(b, q) <==> Alarms(b, p))
  {
    LastOfElsewhere(p.g.calls, q.g.calls, |p.g0.calls|, a, b);
    assert b in p.m.resets - {a} <==> b in q.m.resets - {a};
    assert Lookup(p.m.totals, b) == Lookup(q.m.totals, b);
    if b in p.g.book {
      assert Aside(e, p.g.book[b], q.g.book[b]);
    }
  }

  lemma OneMoreZeroed(e: Env, actions: seq<string>, i: nat, p: Pass, q: Pass)
    requires Distinct(actions) && i < |actions| && ResetSoFar(actions, i, i, p) && !Stopped(actions, i, p)
    requires ElsewhereSame(actions[i], p, q) && Worked(e, p.g, q.g, actions[i]) && q.g0 == p.g0
    requires Zeroed(actions[i], q) && p.errs <= q.errs && (q.errs > 0 <==> p.errs > 0 || Fails(actions[i], q))
    requires AlarmsSeen(actions, i, p) && p.g.alarms <= q.g.alarms
    requires p.g.alarms < q.g.alarms <==> Alarms(actions[i], q)
    ensures ResetSoFar(actions, i + 1, i + 1, q) && AlarmsSeen(actions, i + 1, q)
  {
    hide Zeroed, Deferred, ElsewhereSame, Worked, Fails, Stops, Alarms;
    WorkGrows(e, p.g, q.g, actions[i]);
    forall j | 0 <= j < i
      ensures Zeroed(actions[j], q)
      ensures (Fails(actions[j], q) <==> Fails(actions[j], p)) && (Stops(actions[j], q) <==> Stops(actions[j], p))
      ensures Alarms(actions[j], q) <==> Alarms(actions[j], p)
    {
      ZeroedStays(e, actions[i], actions[j], p, q);
    }
  }

  lemma OneMoreDeferred(e: Env, actions: seq<string>, i: nat, n: nat, p: Pass, q: Pass)
    requires Distinct(actions) && i < |actions| && ResetSoFar(actions, i, n, p) && Stopped(actions, n, p)
    requires ElsewhereSame(actions[i], p, q) && Worked(e, p.g, q.g, actions[i]) && q.g0 == p.g0
    requires Deferred(actions[i], q) && q.errs > 0 && q.g.alarms == p.g.alarms && AlarmsSeen(actions, n, p)
    ensures ResetSoFar(actions, i + 1, n, q) && Stopped(actions, n, q) && AlarmsSeen(actions, n, q)
  {
    hide Zeroed, Deferred, ElsewhereSame, Worked, Fails, Stops, Alarms;
    WorkGrows(e, p.g, q.g, actions[i]);
    forall j | 0 <= j < i
      ensures j < n ==> Zeroed(actions[j], q)
      ensures j >= n ==> Deferred(actions[j], q)
      ensures (Fails(actions[j], q) <==> Fails(actions[j], p)) && (Stops(actions[j], q) <==> Stops(actions[j], p))
      ensures Alarms(actions[j], q) <==> Alarms(actions[j], p)
    {
      ZeroedStays(e, actions[i], actions[j], p, q);
    }
  }

  lemma ZeroingGrows(actions: seq<string>, i: nat, n: nat, p: Pass)
    requires ResetSoFar(actions, i, n, p)
    ensures |p.g0.calls| <= |p.g.calls| && n <= i
  {
  }

  lemma LaterAt(e: Env, g: Books, h: Books, a: string)
    requires Onward(e, g, h) && a in h.book
    ensures a in g.book && Later(g.book[a], h.book[a])
  {
  }

  /** What is remembered about other actions does not change in a reset of one. */
  lemma MindElsewhere(a: string, p: Pass, q: Pass)
    requires q.g0 == p.g0 && q.m0 == p.m0 && q.unwritten == p.unwritten && q.m.hold == p.m.hold
    requires q.m.resets == p.m.resets + {a} || q.m.resets == p.m.resets - {a}
    requires q.m.totals == p.m.totals || q.m.totals == p.m.totals - {a}
    ensures ElsewhereSame(a, p, q)
  {
  }

  /** One reset, seen from the beginning of the pass of resets. */
  lemma ZeroedNow(a: string, p: Pass, q: Pass, x: Account, error: Option<Error>)
    requires q.g0 == p.g0 && |p.g0.calls| <= |p.g.calls| && p.g.calls <= q.g.calls && a in p.g0.book && a in q.g.book
    requires ZeroingEnds(p.g, q.g, a, error) && Later(p.g0.book[a], x)
    requires if error.None? then a !in q.m.resets && a !in q.m.totals && ZeroedFrom(x, q.g.book[a]) else a in q.m.resets
    ensures Zeroed(a, q) && LastError(q.g0, q.g, a) == error
    ensures (Fails(a, q) <==> error.Some?) && (Stops(a, q) <==> OutOfReach(error)) && (Alarms(a, q) <==> IsAlarm(error))
  {
    LastOfTwo(p.g.calls, q.g.calls, |p.g0.calls|, a);
  }

  lemma DeferredNow(a: string, p: Pass, q: Pass)
    requires q.g0 == p.g0 && |p.g0.calls| <= |p.g.calls| && q.g.calls == p.g.calls + [Deferral(a)]
    requires a in p.g0.book && a in q.g.book && a in q.m.resets
    ensures Deferred(a, q)
  {
  }

  /** The same seen from before the flush, and what it leaves to be done. */
  lemma ResetSeen(e: Env, actions: seq<string>, n: nat, p: Pass, q: Pass)
    requires ResetSoFar(actions, |actions|, n, p) && Onward(e, q.g0, p.g0) && Onward(e, p.g0, p.g)
    requires q == p.(g0 := q.g0, m0 := q.m0, errs := if p.m.resets == {} then 0 else 1)
    requires p.m.resets <= Elements(actions) && p.errs >= 0
    ensures ResetSoFar(actions, |actions|, n, q) && (p.m.resets == {} <==> p.errs == 0)
    ensures forall j :: 0 <= j < n ==> Alarms(actions[j], q) == Alarms(actions[j], p)
  {
    hide Zeroed, Deferred, Fails, Stops, Alarms, Onward;
    CallsGrow(e, q.g0, p.g0);
    CallsGrow(e, p.g0, p.g);
    forall j | 0 <= j < |actions|
      ensures j < n ==> Zeroed(actions[j], q) && (Fails(actions[j], p) ==> actions[j] in p.m.resets)
      ensures j < n && !Fails(actions[j], p) ==> actions[j] !in p.m.resets
      ensures j >= n ==> Deferred(actions[j], q) && actions[j] in p.m.resets
      ensures j < n ==> (Fails(actions[j], q) <==> Fails(actions[j], p))
      ensures j < n ==> (Stops(actions[j], q) <==> Stops(actions[j], p))
      ensures j < n ==> (Alarms(actions[j], q) <==> Alarms(actions[j], p))
    {
      ActionReset(e, actions[j], p, q);
    }
    if n < |actions| {
      assert actions[n] in p.m.resets;
    }
    if p.m.resets != {} {
      var a :| a in p.m.resets;
      var j :| 0 <= j < |actions| && actions[j] == a;
      assert j < n ==> Fails(actions[j], p);
      assert p.errs > 0 && (n < |actions| || exists k :: 0 <= k < n && Fails(actions[k], q));
    } else {
      assert forall k :: 0 <= k < n ==> !Fails(actions[k], p) && !Fails(actions[k], q);
    }
  }

  lemma CallsGrow(e: Env, g: Books, h: Books)
    requires Onward(e, g, h)
    ensures |g.calls| <= |h.calls|
  {
  }

  lemma ActionReset(e: Env, a: string, p: Pass, q: Pass)
    requires Onward(e, q.g0, p.g0) && q.g == p.g && q.m == p.m
    ensures Zeroed(a, p) ==> Zeroed(a, q) && (Fails(a, p) <==> a in p.m.resets)
    ensures Deferred(a, p) ==> Deferred(a, q) && a in p.m.resets
    ensures Zeroed(a, p) || Deferred(a, p) ==>
              (Fails(a, q) <==> Fails(a, p)) && (Stops(a, q) <==> Stops(a, p)) && (Alarms(a, q) <==> Alarms(a, p))
  {
    if LastOf(p.g.calls, |p.g0.calls|, a).Some? {
      LastOfLater(p.g.calls, |q.g0.calls|, |p.g0.calls|, a);
    }
  }

  /** What a reset erases in the end: what the counters held and everything drained on the way. */
  predicate AllErased(g: Books, h: Books, drained: map<string, int>) {
    forall a :: a in g.book ==> a in h.book && Erased(g.book[a], h.book[a], Get(drained, a))
  }

  predicate Erased(x: Account, y: Account, drained: int) {
    && Later(x, y)
    && (Quiet(x, y) ==> Val(y.counter) == 0 && y.erased == x.erased + Val(x.counter) + drained)
  }

  lemma ErasedWithin(g: Books, h: Books, i: Books, drained: map<string, int>)
    requires StandsStill(g, h) && AllErased(h, i, drained)
    ensures AllErased(g, i, drained)
  {
  }

  lemma AllSwept(actions: seq<string>, g: Books, g0: Books, h: Books, was: set<string>, drained: map<string, int>,
                 resets: set<string>, totals: map<string, int>)
    requires Sweeping(actions, |actions|, g0, h, resets, totals)
    requires resets <= Elements(actions) && totals.Keys <= Elements(actions) && g.book.Keys == Elements(actions)
    requires AllFlushed(g, g0, was, drained)
    ensures resets == {} && totals == map[]
    ensures AllErased(g, h, drained)
  {
    forall a | a in actions
      ensures a !in resets && a !in totals
      ensures a in g0.book && a in h.book && ZeroedFrom(g0.book[a], h.book[a])
    {
      var j :| 0 <= j < |actions| && actions[j] == a;
    }
    assert totals.Keys == {};
  }

  /** If no other process writes our keys, then nothing disturbs an account after the first refresh, as
      long as the guarantee given to the keys is not missed. */
  lemma SoleIsQuiet(e: Env, g: Books, h: Books, a: string)
    requires e.sole && g.touched && Onward(e, g, h) && !h.starved && a in g.book && a in h.book
    requires Sound(e, g, g.book[a]) && Sound(e, h, h.book[a])
    ensures Quiet(g.book[a], h.book[a])
  {
    hide Late, Balanced, Timed;
  }

  /** More lines have been counted since. */
  lemma MarkedMoreOk(e: Env, x: Account, y: Account, ready: bool, inReset: bool, total: Option<int>,
                     marked: int, more: int, agreed: bool)
    requires ActionOk(e, x, ready, inReset, total, marked, agreed) && Aside(e, x, y)
    requires marked <= more
    ensures ActionOk(e, y, ready, inReset, total, more, agreed)
  {
    AsideOk(e, x, y, ready, inReset, total, marked, agreed);
  }
}
