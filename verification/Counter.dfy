/** The mutex-protected buffer between the tailer and the flush.  Every method below is one critical
    section; what the two goroutines do between critical sections is modelled by `World`. */
module Counters {
  import opened Prelude
  import opened Matching

  class Counter {
    const actions: seq<string>
    const rule: Rule
    const needles: seq<string>

    var pending: map<string, int>
    var matched: map<string, int>
    var lines: int

    ghost var processed: seq<string>    // every line handed to ProcessLine, in order
    ghost var taken: map<string, int>   // drained and not restored since
    ghost var seen: seq<string>         // what had been processed at the latest Drain

    /** How often the lines so far increment action `a`. */
    ghost function Total(a: string): nat
      reads `processed
    {
      Tally(rule, actions, processed, a)
    }

    /** How much of it had been counted at the latest Drain. */
    ghost function Marked(a: string): nat
      reads `seen
    {
      Tally(rule, actions, seen, a)
    }

    ghost predicate Valid()
      reads this
    {
      && |needles| == |actions|
      && (forall i :: 0 <= i < |actions| ==> needles[i] == rule.Needle(actions[i]))
      && lines == |processed|
      && seen <= processed
      && matched.Keys == Elements(actions)
      && (forall a :: a in matched ==> matched[a] == Total(a))
      && Accounted()
    }

    /** The buffer holds exactly what was counted and is not taken. */
    ghost predicate Accounted()
      reads `pending, `processed, `taken
    {
      forall a :: Get(pending, a) == Total(a) - Get(taken, a)
    }

    /** Only configured actions are buffered, and only with something to write. */
    ghost predicate Positive()
      reads this
    {
      AllPositive(pending, actions)
    }

    /** Nothing was drained or put back, or as much put back as drained. */
    twostate predicate SameTaken()
      reads `taken
    {
      forall a :: Get(taken, a) == Get(old(taken), a)
    }

    constructor (actions: seq<string>, rule: Rule)
      ensures Valid() && Positive()
      ensures this.actions == actions && this.rule == rule
      ensures pending == map[] && processed == [] && taken == map[] && seen == []
    {
      this.actions := actions;
      this.rule := rule;
      this.needles := seq(|actions|, i requires 0 <= i < |actions| => rule.Needle(actions[i]));
      pending := map[];
      lines := 0;
      matched := map a | a in actions :: 0;
      processed, taken, seen := [], map[], [];
    }

    /** Computes `Match` with needles folded once, when the buffer was made. */
    method MatchLine(line: string) returns (found: seq<string>)
      requires Valid()
      ensures found == Match(rule, actions, line)
      ensures rule.caseSensitive ==>
                forall a :: a in found <==> a in actions && exists i: nat :: OccursAt(line, a, i)
      ensures !rule.caseSensitive ==>
                forall a :: a in found <==> a in actions && exists i: nat :: OccursAt(rule.fold(line), rule.fold(a), i)
    {
      var text := if rule.caseSensitive then line else rule.fold(line);
      found := [];
      for i := 0 to |needles|
        invariant found == Match(rule, actions[..i], line)
      {
        assert actions[..i + 1][..i] == actions[..i];
        if Contains(text, needles[i]) {
          found := found + [actions[i]];
        }
      }
      assert actions[..|actions|] == actions;
      forall a
        ensures a in found <==> a in actions && rule.Matches(a, line)
        ensures rule.caseSensitive ==> (rule.Matches(a, line) <==> exists i: nat :: OccursAt(line, a, i))
        ensures !rule.caseSensitive ==>
                  (rule.Matches(a, line) <==> exists i: nat :: OccursAt(rule.fold(line), rule.fold(a), i))
      {
        MatchMeans(rule, actions, line, a);
        MatchesText(rule, a, line);
      }
    }

    method ProcessLine(line: string) returns (found: seq<string>)
      requires Valid()
      modifies this
      ensures Valid() && (old(Positive()) ==> Positive())
      ensures found == Match(rule, actions, line)
      ensures processed == old(processed) + [line]
      ensures taken == old(taken) && seen == old(seen)
    {
      hide Tally, Match, Get, AllPositive;
      found := MatchLine(line);
      MatchIsConfigured(rule, actions, line);
      lines := lines + 1;
      Increment(found);
      processed := processed + [line];
      forall a
        ensures Total(a) == old(Total(a)) + multiset(found)[a]
      {
        TallySnoc(rule, actions, old(processed), line, a);
      }
    }

    method Increment(found: seq<string>)
      modifies `pending, `matched
      requires forall a :: a in found ==> a in matched && a in actions
      ensures forall a :: Get(pending, a) == Get(old(pending), a) + multiset(found)[a]
      ensures matched.Keys == old(matched.Keys)
      ensures forall a :: a in matched ==> matched[a] == old(matched)[a] + multiset(found)[a]
      ensures old(Positive()) ==> Positive()
    {
      hide Get, AllPositive;
      for i := 0 to |found|
        invariant pending == Bumped(old(pending), found[..i])
        invariant matched == Bumped(old(matched), found[..i])
      {
        assert found[..i + 1][..i] == found[..i];
        pending := pending[found[i] := Get(pending, found[i]) + 1];
        matched := matched[found[i] := Get(matched, found[i]) + 1];
      }
      assert found[..|found|] == found;
      BumpedAt(old(pending), found);
      BumpedAt(old(matched), found);
      BumpedPositive(old(pending), found, actions);
      BumpedKeys(old(matched), found);
    }

    /** Moves the whole buffer into `taken` and marks the lines behind it as seen. */
    method Drain() returns (out: map<string, int>)
      requires Valid()
      modifies this
      ensures Valid() && (old(Positive()) ==> Positive())
      ensures out == old(pending) && pending == map[]
      ensures taken == Plus(old(taken), out)
      ensures processed == old(processed) && seen == processed
    {
      hide Tally, Plus, Elements, Get, Accounted;
      out := pending;
      if |pending| != 0 {
        pending := map[];
      }
      taken := Plus(taken, out);
      seen := processed;
      DrainAccounted();
    }

    twostate lemma DrainAccounted()
      requires old(Accounted()) && pending == map[] && taken == Plus(old(taken), old(pending))
      requires processed == old(processed)
      ensures Accounted()
    {
      hide Tally;
    }

    /** Moves `deltas` from `taken` back into the buffer, on top of what lines have added since. */
    method Restore(deltas: map<string, int>)
      requires Valid()
      modifies this
      ensures Valid()
      ensures old(Positive()) && AllPositive(deltas, actions) ==> Positive()
      ensures forall a :: Get(pending, a) == Get(old(pending), a) + Get(deltas, a)
      ensures taken == Minus(old(taken), deltas)
      ensures processed == old(processed) && seen == old(seen)
    {
      hide Tally, Minus, Get;
      pending := AddEach(actions, pending, deltas);
      taken := Minus(taken, deltas);
    }

    /** The totals of all configured actions, copied entry by entry. */
    method Matched() returns (out: map<string, int>)
      requires Valid()
      ensures out.Keys == Elements(actions)
      ensures forall a :: a in actions ==> out[a] == Total(a)
    {
      hide Tally, Get, Only;
      out := map[];
      var todo := matched.Keys;
      OnlyNothing(matched, matched.Keys - todo);
      while todo != {}
        invariant todo <= matched.Keys
        invariant out == Only(matched, matched.Keys - todo)
        decreases |todo|
      {
        var a :| a in todo;
        OnlyOneMore(matched, todo, a);
        out := out[a := matched[a]];
        todo := todo - {a};
      }
      OnlyAll(matched, matched.Keys - todo);
    }

    /** What is buffered for each configured action, which is what was counted and is not taken. */
    method PendingByAction() returns (out: map<string, int>)
      requires Valid()
      ensures out.Keys == Elements(actions)
      ensures forall a :: a in actions ==> out[a] == Total(a) - Get(taken, a)
    {
      out := map[];
      for i := 0 to |actions|
        invariant out.Keys == Elements(actions[..i])
        invariant forall a :: a in out ==> out[a] == Get(pending, a)
      {
        out := out[actions[i] := Get(pending, actions[i])];
      }
    }

    /** The sum of the buffer over all its entries. */
    method Pending() returns (total: int)
      requires Valid()
      ensures total == Sum(pending)
    {
      total := 0;
      var todo := pending.Keys;
      assert Only(pending, pending.Keys) == pending;
      while todo != {}
        invariant todo <= pending.Keys
        invariant total + Sum(Only(pending, todo)) == Sum(pending)
        decreases |todo|
      {
        var a :| a in todo;
        SumWithout(Only(pending, todo), a);
        assert Only(pending, todo) - {a} == Only(pending, todo - {a});
        total := total + pending[a];
        todo := todo - {a};
      }
    }

    method Lines() returns (n: int)
      requires Valid()
      ensures n == |processed|
    {
      n := lines;
    }

    /** Neither a per-action buffer nor the sum of all buffers can outgrow the number of lines read
        times the number of actions, as long as nothing was restored that had not been drained. */
    lemma BufferBounds()
      requires Valid() && Positive() && Distinct(actions)
      requires forall a :: Get(taken, a) >= 0
      ensures forall a :: 0 <= Get(pending, a) <= lines
      ensures forall a :: a in actions ==> Get(pending, a) <= matched[a] <= lines
      ensures Sum(pending) <= |actions| * lines
    {
      forall a
        ensures Total(a) <= lines
      {
        TallyIsCount(rule, actions, processed, a);
        CountAtMostLines(rule, processed, a);
      }
      assert forall a :: a in pending ==> pending[a] == Get(pending, a);
      SumAtMost(pending, lines);
      ElementsCount(actions);
      SubsetCount(pending.Keys, Elements(actions));
      MoreTimes(|pending|, |actions|, lines);
    }
  }

  lemma {:induction false} MatchIsConfigured(rule: Rule, actions: seq<string>, line: string)
    ensures forall a :: a in Match(rule, actions, line) ==> a in actions
  {
    if actions != [] {
      MatchIsConfigured(rule, actions[..|actions| - 1], line);
    }
  }

  /** `m` with one added to the entry of every listed action. */
  function Bumped(m: map<string, int>, found: seq<string>): map<string, int> {
    if found == [] then m
    else
      var n := |found| - 1;
      var b := Bumped(m, found[..n]);
      b[found[n] := Get(b, found[n]) + 1]
  }

  lemma {:induction false} BumpedAt(m: map<string, int>, found: seq<string>)
    ensures forall a :: Get(Bumped(m, found), a) == Get(m, a) + multiset(found)[a]
    ensures Bumped(m, found).Keys == m.Keys + Elements(found)
  {
    if found != [] {
      var n := |found| - 1;
      BumpedAt(m, found[..n]);
      assert found == found[..n] + [found[n]];
    }
  }

  lemma {:induction false} BumpedPositive(m: map<string, int>, found: seq<string>, actions: seq<string>)
    requires forall a :: a in found ==> a in actions
    ensures AllPositive(m, actions) ==> AllPositive(Bumped(m, found), actions)
  {
    if found != [] {
      BumpedPositive(m, found[..|found| - 1], actions);
    }
  }

  lemma BumpedKeys(m: map<string, int>, found: seq<string>)
    requires forall a :: a in found ==> a in m
    ensures Bumped(m, found).Keys == m.Keys
    ensures forall a :: a in m ==> Bumped(m, found)[a] == m[a] + multiset(found)[a]
  {
    BumpedAt(m, found);
    forall a | a in m
      ensures Bumped(m, found)[a] == m[a] + multiset(found)[a]
    {
      assert Get(Bumped(m, found), a) == Get(m, a) + multiset(found)[a];
    }
  }

  ghost predicate AllPositive(m: map<string, int>, actions: seq<string>) {
    forall a :: a in m ==> m[a] > 0 && a in actions
  }

  /** Adds `deltas` to `buffer` entry by entry.  The iteration order of a Go map is unspecified, so
      the model picks any. */
  method AddEach(ghost actions: seq<string>, buffer: map<string, int>, deltas: map<string, int>)
    returns (sum: map<string, int>)
    ensures forall a :: Get(sum, a) == Get(buffer, a) + Get(deltas, a)
    ensures AllPositive(buffer, actions) && AllPositive(deltas, actions) ==> AllPositive(sum, actions)
  {
    sum := buffer;
    var todo := deltas.Keys;
    while todo != {}
      invariant todo <= deltas.Keys
      invariant forall a :: Get(sum, a) == Get(buffer, a) + if a in todo then 0 else Get(deltas, a)
      invariant AllPositive(buffer, actions) && AllPositive(deltas, actions) ==> AllPositive(sum, actions)
      decreases |todo|
    {
      var a :| a in todo;
      sum := sum[a := Get(sum, a) + deltas[a]];
      todo := todo - {a};
    }
  }

  function Only(m: map<string, int>, keys: set<string>): map<string, int> {
    map a | a in m && a in keys :: m[a]
  }

  lemma OnlyNothing(m: map<string, int>, keys: set<string>)
    requires keys == {}
    ensures Only(m, keys) == map[]
  {
  }

  lemma OnlyAll(m: map<string, int>, keys: set<string>)
    requires keys == m.Keys
    ensures Only(m, keys) == m
  {
  }

  lemma OnlyOneMore(m: map<string, int>, todo: set<string>, a: string)
    requires a in todo && todo <= m.Keys
    ensures Only(m, m.Keys - (todo - {a})) == Only(m, m.Keys - todo)[a := m[a]]
  {
  }

  ghost function Sum(m: map<string, int>): int
    decreases |m|
  {
    if m == map[] then 0
    else
      var a :| a in m;
      assert |m.Keys - {a}| < |m.Keys|;
      assert (m - {a}).Keys == m.Keys - {a};
      m[a] + Sum(m - {a})
  }

  /** The order in which a map is summed does not matter. */
  lemma {:induction false} SumWithout(m: map<string, int>, a: string)
    requires a in m
    ensures Sum(m) == m[a] + Sum(m - {a})
    decreases |m|
  {
    var b :| b in m && Sum(m) == m[b] + Sum(m - {b});
    if b != a {
      assert (m - {b}).Keys == m.Keys - {b} && (m - {a}).Keys == m.Keys - {a};
      SumWithout(m - {b}, a);
      SumWithout(m - {a}, b);
      assert m - {b} - {a} == m - {a} - {b};
    }
  }

  lemma {:induction false} SumAtMost(m: map<string, int>, bound: int)
    requires forall a :: a in m ==> m[a] <= bound
    ensures Sum(m) <= |m| * bound
    decreases |m|
  {
    if m != map[] {
      var a :| a in m;
      var rest := m - {a};
      assert rest.Keys == m.Keys - {a};
      SumWithout(m, a);
      SumAtMost(rest, bound);
      OneMore(|rest|, |m|, bound);
    }
  }

  lemma OneMore(n: int, m: int, bound: int)
    requires m == n + 1
    ensures m * bound == n * bound + bound
  {
  }

  lemma MoreTimes(n: int, m: int, bound: int)
    requires n <= m && 0 <= bound
    ensures n * bound <= m * bound
  {
  }

  lemma {:induction false} ElementsCount(s: seq<string>)
    ensures |Elements(s)| <= |s|
  {
    if s != [] {
      var n := |s| - 1;
      ElementsCount(s[..n]);
      assert Elements(s) == Elements(s[..n]) + {s[n]};
    }
  }

  lemma SubsetCount(a: set<string>, b: set<string>)
    requires a <= b
    ensures |a| <= |b|
  {
    assert b == a + (b - a);
  }
}
