/** The matching rule: which actions a log line increments, and how many lines of a log match. */
module Matching {
  import opened Prelude

  /** How actions are compared with a line.  `fold` stands for the lower-casing of the platform; it
      is a parameter, so everything below holds for every such function. */
  datatype Rule = Rule(caseSensitive: bool, fold: string -> string) {

    function Needle(text: string): string {
      if caseSensitive then text else fold(text)
    }

    /** The line contains the action once the rule has been applied to both. */
    predicate Matches(action: string, line: string) {
      Contains(Needle(line), Needle(action))
    }
  }

  predicate OccursAt(s: string, sub: string, i: nat) {
    i + |sub| <= |s| && s[i..i + |sub|] == sub
  }

  predicate Contains(s: string, sub: string) {
    exists i :: 0 <= i <= |s| && OccursAt(s, sub, i)
  }

  lemma ContainsItself(s: string)
    ensures Contains(s, s)
  {
    assert OccursAt(s, s, 0);
  }

  lemma ContainsTransitive(s: string, t: string, u: string)
    requires Contains(s, t) && Contains(t, u)
    ensures Contains(s, u)
  {
    var i :| 0 <= i <= |s| && OccursAt(s, t, i);
    var j :| 0 <= j <= |t| && OccursAt(t, u, j);
    OccursWithin(s, t, u, i, j);
  }

  lemma OccursWithin(s: string, t: string, u: string, i: nat, j: nat)
    requires OccursAt(s, t, i) && OccursAt(t, u, j)
    ensures OccursAt(s, u, i + j)
  {
    forall k | 0 <= k < |u|
      ensures s[i + j + k] == u[k]
    {
      assert u[k] == t[j..j + |u|][k] == t[j + k] == s[i..i + |t|][j + k];
    }
  }

  /** Two texts that contain each other are the same text. */
  lemma ContainsAntisymmetric(s: string, t: string)
    requires Contains(s, t) && Contains(t, s)
    ensures s == t
  {
    var i :| 0 <= i <= |s| && OccursAt(s, t, i);
    assert i == 0 && s[0..|s|] == s;
  }

  /** The matching actions, each as often as it is listed and in the order of the list. */
  function Match(rule: Rule, actions: seq<string>, line: string): seq<string> {
    if actions == [] then []
    else
      var n := |actions| - 1;
      Match(rule, actions[..n], line) + if rule.Matches(actions[n], line) then [actions[n]] else []
  }

  lemma {:induction false} MatchMeans(rule: Rule, actions: seq<string>, line: string, a: string)
    ensures a in Match(rule, actions, line) <==> a in actions && rule.Matches(a, line)
  {
    if actions != [] {
      var n := |actions| - 1;
      MatchMeans(rule, actions[..n], line, a);
      assert actions == actions[..n] + [actions[n]];
    }
  }

  /** A case-sensitive rule looks for the action itself in the line itself, whatever lower-casing does;
      the other one looks for the lower-cased action in the lower-cased line. */
  lemma MatchesText(rule: Rule, a: string, line: string)
    ensures rule.caseSensitive ==> (rule.Matches(a, line) <==> exists i: nat :: OccursAt(line, a, i))
    ensures !rule.caseSensitive ==>
              (rule.Matches(a, line) <==> exists i: nat :: OccursAt(rule.fold(line), rule.fold(a), i))
  {
    ContainsText(line, a);
    ContainsText(rule.fold(line), rule.fold(a));
  }

  lemma ContainsText(s: string, sub: string)
    ensures Contains(s, sub) <==> exists i: nat :: OccursAt(s, sub, i)
  {
    if i: nat :| OccursAt(s, sub, i) {
      assert 0 <= i <= |s|;
    }
  }

  /** How often action `a` was incremented by the lines of a log. */
  function Tally(rule: Rule, actions: seq<string>, lines: seq<string>, a: string): nat {
    if lines == [] then 0
    else
      var n := |lines| - 1;
      Tally(rule, actions, lines[..n], a) + multiset(Match(rule, actions, lines[n]))[a]
  }

  /** How many lines of a log contain action `a`: the number the system is there to report. */
  function Count(rule: Rule, lines: seq<string>, a: string): nat {
    if lines == [] then 0
    else
      var n := |lines| - 1;
      Count(rule, lines[..n], a) + if rule.Matches(a, lines[n]) then 1 else 0
  }

  lemma {:induction false} MatchOnce(rule: Rule, actions: seq<string>, line: string, a: string)
    requires Distinct(actions)
    ensures multiset(Match(rule, actions, line))[a] == if a in actions && rule.Matches(a, line) then 1 else 0
  {
    if actions != [] {
      var n := |actions| - 1;
      MatchOnce(rule, actions[..n], line, a);
      assert actions == actions[..n] + [actions[n]];
    }
  }

  /** With distinct actions an action is incremented once per matching line, however often it occurs
      in that line and whatever else the line matches. */
  lemma {:induction false} TallyIsCount(rule: Rule, actions: seq<string>, lines: seq<string>, a: string)
    requires Distinct(actions)
    ensures Tally(rule, actions, lines, a) == if a in actions then Count(rule, lines, a) else 0
  {
    if lines != [] {
      var n := |lines| - 1;
      TallyIsCount(rule, actions, lines[..n], a);
      MatchOnce(rule, actions, lines[n], a);
    }
  }

  lemma {:induction false} CountAtMostLines(rule: Rule, lines: seq<string>, a: string)
    ensures Count(rule, lines, a) <= |lines|
  {
    if lines != [] {
      CountAtMostLines(rule, lines[..|lines| - 1], a);
    }
  }

  lemma TallySnoc(rule: Rule, actions: seq<string>, lines: seq<string>, line: string, a: string)
    ensures Tally(rule, actions, lines + [line], a)
         == Tally(rule, actions, lines, a) + multiset(Match(rule, actions, line))[a]
  {
    assert (lines + [line])[..|lines|] == lines;
  }

  lemma {:induction false} TallyConcat(rule: Rule, actions: seq<string>, lines: seq<string>, more: seq<string>,
                                       a: string)
    ensures Tally(rule, actions, lines + more, a) == Tally(rule, actions, lines, a) + Tally(rule, actions, more, a)
  {
    hide Match;
    if more == [] {
      assert lines + more == lines;
    } else {
      var n := |more| - 1;
      TallyConcat(rule, actions, lines, more[..n], a);
      TallySnoc(rule, actions, lines + more[..n], more[n], a);
      TallySnoc(rule, actions, more[..n], more[n], a);
      assert lines + more == lines + more[..n] + [more[n]] && more == more[..n] + [more[n]];
    }
  }

  lemma {:induction false} TallyGrows(rule: Rule, actions: seq<string>, lines: seq<string>, more: seq<string>,
                                      a: string)
    requires lines <= more
    ensures Tally(rule, actions, lines, a) <= Tally(rule, actions, more, a)
    decreases |more|
  {
    if lines == more {
    } else {
      TallyGrows(rule, actions, lines, more[..|more| - 1], a);
    }
  }
}
