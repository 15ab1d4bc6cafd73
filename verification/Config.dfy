/** The configuration: what is accepted, how the list of actions is normalised, and which pairs of
    actions are worth a warning. */
module Configs {
  import opened Prelude
  import opened Matching

  datatype Warning =
    | Duplicate(action: string)
    | Twin(first: string, second: string)
    | Substring(first: string, second: string)
    | TtlTooShort(ttl: int, interval: int)

  datatype Problem =
    | NoLogPath | NoActions | EmptyAction(index: nat) | BadInterval | NoLockFile
    | NoRedisHost | BadRedisPort | BadRedisDb | BadRedisTtl
    | BadLevel | NoLogFile | BadOutput | BadSchedule | BadListen | BadPath

  /** The fields other than the actions.  `schedule` and `listen` come with the verdict of the
      libraries that parse them. */
  datatype Settings = Settings(
    logPath: string, caseSensitive: bool, flushInterval: int, heartbeatKey: bool, lockFile: string,
    redisHost: string, redisPort: int, redisDb: int, redisTtl: int,
    level: string, output: string, logFile: string,
    resetEnabled: bool, schedule: string, scheduleParses: bool,
    listen: string, listenPort: Option<int>, path: string)
  {
    function Rest(): seq<Problem> {
      Basics() + Storage() + Logs() + Addresses()
    }

    function Basics(): seq<Problem> {
      (if flushInterval <= 0 then [BadInterval] else [])
      + (if Blank(lockFile) then [NoLockFile] else [])
    }

    function Storage(): seq<Problem> {
      (if Blank(redisHost) then [NoRedisHost] else [])
      + (if redisPort < 1 || redisPort > 65535 then [BadRedisPort] else [])
      + (if redisDb < 0 then [BadRedisDb] else [])
      + (if redisTtl < 0 then [BadRedisTtl] else [])
    }

    function Logs(): seq<Problem> {
      (if level in ["debug", "info", "warn", "error"] then [] else [BadLevel])
      + (if output == "journald" then []
         else if output != "file" then [BadOutput]
         else if Blank(logFile) then [NoLogFile] else [])
    }

    function Addresses(): seq<Problem> {
      (if Blank(schedule) || !scheduleParses then [BadSchedule] else [])
      + (if Blank(listen) || listenPort.None? || listenPort.value < 1 || listenPort.value > 65535 then [BadListen]
         else if !GoodPath(path) then [BadPath] else [])
    }

    function First(): seq<Problem> {
      if Blank(logPath) then [NoLogPath] else []
    }

    predicate Fine() {
      First() == [] && Rest() == []
    }

    function TtlRemarks(): seq<Warning> {
      if redisTtl > 0 && flushInterval > 0 && redisTtl <= flushInterval
      then [TtlTooShort(redisTtl, flushInterval)] else []
    }
  }

  predicate IsSpace(c: char) {
    || '\t' <= c <= '\r' || c == ' ' || c == '\U{85}' || c == '\U{A0}' || c == '\U{1680}'
    || '\U{2000}' <= c <= '\U{200A}'
    || c == '\U{2028}' || c == '\U{2029}' || c == '\U{202F}' || c == '\U{205F}' || c == '\U{3000}'
  }

  predicate Blank(s: string) {
    forall c :: c in s ==> IsSpace(c)
  }

  predicate GoodPath(path: string) {
    && path != [] && path[0] == '/'
    && (forall c :: c in path ==> c != '{' && c != '}' && !IsSpace(c))
    && (path != "/" ==> path[|path| - 1] != '/')
  }

  // ---------- normalisation ----------

  /** The non-empty actions, each at the place of its first occurrence. */
  function Normal(list: seq<string>): seq<string> {
    if list == [] then []
    else
      var n := |list| - 1;
      var earlier := Normal(list[..n]);
      if list[n] == "" || list[n] in earlier then earlier else earlier + [list[n]]
  }

  function Duplicates(list: seq<string>): seq<Warning> {
    if list == [] then []
    else
      var n := |list| - 1;
      Duplicates(list[..n]) + if list[n] != "" && list[n] in Normal(list[..n]) then [Duplicate(list[n])] else []
  }

  function EmptyOnes(list: seq<string>): seq<Problem> {
    if list == [] then []
    else
      var n := |list| - 1;
      EmptyOnes(list[..n]) + if list[n] == "" then [EmptyAction(n)] else []
  }

  /** Where a text first occurs in a list that has it. */
  function FirstAt(list: seq<string>, a: string): (i: nat)
    requires a in list
    ensures i < |list| && list[i] == a && forall k :: 0 <= k < i ==> list[k] != a
  {
    if a in list[..|list| - 1] then FirstAt(list[..|list| - 1], a) else |list| - 1
  }

  /** The list becomes exactly its non-empty members, without repetition, in the order in which they
      first occur. */
  lemma {:induction false} NormalMeans(list: seq<string>)
    ensures Distinct(Normal(list))
    ensures forall a :: a in Normal(list) <==> a in list && a != ""
    ensures forall i, j :: 0 <= i < j < |Normal(list)| ==>
              && Normal(list)[i] in list && Normal(list)[j] in list
              && FirstAt(list, Normal(list)[i]) < FirstAt(list, Normal(list)[j])
  {
    if list != [] {
      var n := |list| - 1;
      var p := list[..n];
      NormalMeans(p);
      assert list == p + [list[n]];
      forall i, j | 0 <= i < j < |Normal(list)|
        ensures Normal(list)[i] in list && Normal(list)[j] in list
        ensures FirstAt(list, Normal(list)[i]) < FirstAt(list, Normal(list)[j])
      {
        var a, b := Normal(list)[i], Normal(list)[j];
        assert a == Normal(p)[i] && a in p && FirstAt(list, a) == FirstAt(p, a);
        if j < |Normal(p)| {
          assert b == Normal(p)[j] && FirstAt(list, b) == FirstAt(p, b);
        }
      }
    }
  }

  /** A list that is already normal stays as it is and has no duplicates to report. */
  lemma {:induction false} AlreadyNormal(list: seq<string>)
    requires Distinct(list) && "" !in list
    ensures Normal(list) == list && Duplicates(list) == [] && EmptyOnes(list) == []
  {
    if list != [] {
      var n := |list| - 1;
      assert list == list[..n] + [list[n]];
      AlreadyNormal(list[..n]);
    }
  }

  lemma DuplicatesStep(list: seq<string>)
    requires list != []
    ensures var n := |list| - 1;
            Duplicates(list) == Duplicates(list[..n])
              + if list[n] != "" && list[n] in Normal(list[..n]) then [Duplicate(list[n])] else []
  {
  }

  lemma NoDuplicates()
    ensures Duplicates([]) == []
  {
  }

  lemma NormalHas(list: seq<string>, a: string)
    ensures a in Normal(list) <==> a in list && a != ""
  {
    NormalMeans(list);
  }

  /** A repeated action is reported once for every occurrence after its first. */
  lemma {:induction false} DuplicatesCount(list: seq<string>, a: string)
    ensures multiset(Duplicates(list))[Duplicate(a)] == if a != "" && a in list then multiset(list)[a] - 1 else 0
  {
    hide Duplicates, Normal;
    if list == [] {
      NoDuplicates();
    }
    if list != [] {
      var n := |list| - 1;
      var p := list[..n];
      DuplicatesCount(p, a);
      NormalHas(p, list[n]);
      assert list == p + [list[n]];
      DuplicatesStep(list);
      if a != list[n] {
        assert multiset(list)[a] == multiset(p)[a];
      } else {
        assert multiset(list)[a] == multiset(p)[a] + 1;
      }
    }
  }

  lemma {:induction false} NoEmptyOnes(list: seq<string>)
    ensures EmptyOnes(list) == [] <==> "" !in list
  {
    if list != [] {
      var n := |list| - 1;
      assert list == list[..n] + [list[n]];
      NoEmptyOnes(list[..n]);
    }
  }

  // ---------- overlapping actions ----------

  /** The remark on a pair of positions of the list. */
  function Remark(rule: Rule, actions: seq<string>, i: nat, j: nat): seq<Warning>
    requires i < |actions| && j < |actions|
  {
    var a, b := actions[i], actions[j];
    if i == j || a == "" || b == "" then []
    else if rule.Needle(a) == rule.Needle(b) then (if i < j then [Twin(a, b)] else [])
    else if Contains(rule.Needle(b), rule.Needle(a)) then [Substring(a, b)]
    else []
  }

  function Row(rule: Rule, actions: seq<string>, i: nat, n: nat): seq<Warning>
    requires i < |actions| && n <= |actions|
  {
    if n == 0 then [] else Row(rule, actions, i, n - 1) + Remark(rule, actions, i, n - 1)
  }

  function Rows(rule: Rule, actions: seq<string>, m: nat): seq<Warning>
    requires m <= |actions|
  {
    if m == 0 then [] else Rows(rule, actions, m - 1) + Row(rule, actions, m - 1, |actions|)
  }

  method Overlaps(actions: seq<string>, rule: Rule) returns (warnings: seq<Warning>)
    ensures warnings == Rows(rule, actions, |actions|)
  {
    hide Row;
    var needles: seq<string> := [];
    for i := 0 to |actions|
      invariant |needles| == i && forall k :: 0 <= k < i ==> needles[k] == rule.Needle(actions[k])
    {
      needles := needles + [if rule.caseSensitive then actions[i] else rule.fold(actions[i])];
    }
    warnings := [];
    for i := 0 to |actions|
      invariant warnings == Rows(rule, actions, i)
    {
      var row := OverlapsOf(actions, needles, i, rule);
      warnings := warnings + row;
    }
  }

  /** The inner loop: one action against all others. */
  method OverlapsOf(actions: seq<string>, needles: seq<string>, i: nat, ghost rule: Rule)
    returns (warnings: seq<Warning>)
    requires |needles| == |actions| && i < |actions|
    requires forall k :: 0 <= k < |actions| ==> needles[k] == rule.Needle(actions[k])
    ensures warnings == Row(rule, actions, i, |actions|)
  {
    hide Contains, Rule.Needle;
    warnings := [];
    for j := 0 to |actions|
      invariant warnings == Row(rule, actions, i, j)
    {
      assert Row(rule, actions, i, j + 1) == Row(rule, actions, i, j) + Remark(rule, actions, i, j);
      if i == j || actions[i] == "" || actions[j] == "" {
        continue;
      }
      if needles[i] == needles[j] {
        if i < j {
          warnings := warnings + [Twin(actions[i], actions[j])];
        }
        continue;
      }
      if Contains(needles[j], needles[i]) {
        warnings := warnings + [Substring(actions[i], actions[j])];
      }
    }
  }

  predicate IsPair(w: Warning, a: string, b: string) {
    w == Twin(a, b) || w == Substring(a, b)
  }

  lemma RemarkElsewhere(rule: Rule, actions: seq<string>, i: nat, j: nat, p: nat, q: nat, w: Warning)
    requires Distinct(actions) && i < |actions| && j < |actions| && p < |actions| && q < |actions|
    requires IsPair(w, actions[p], actions[q]) && (i != p || j != q)
    ensures multiset(Remark(rule, actions, i, j))[w] == 0
  {
    hide Contains, Rule.Needle;
    assert w !in Remark(rule, actions, i, j);
  }

  lemma {:induction false} RowCount(rule: Rule, actions: seq<string>, i: nat, n: nat, p: nat, q: nat, w: Warning)
    requires Distinct(actions) && i < |actions| && n <= |actions| && p < |actions| && q < |actions|
    requires IsPair(w, actions[p], actions[q])
    ensures multiset(Row(rule, actions, i, n))[w]
         == if i == p && q < n then multiset(Remark(rule, actions, p, q))[w] else 0
  {
    hide Remark, Distinct, IsPair;
    if n > 0 {
      RowCount(rule, actions, i, n - 1, p, q, w);
      if i != p || n - 1 != q {
        RemarkElsewhere(rule, actions, i, n - 1, p, q, w);
      }
    }
  }

  /** Every pair of distinct actions is remarked upon once. */
  lemma {:induction false} RowsCount(rule: Rule, actions: seq<string>, m: nat, p: nat, q: nat, w: Warning)
    requires Distinct(actions) && m <= |actions| && p < |actions| && q < |actions|
    requires IsPair(w, actions[p], actions[q])
    ensures multiset(Rows(rule, actions, m))[w] == if p < m then multiset(Remark(rule, actions, p, q))[w] else 0
  {
    hide Remark, Distinct, IsPair, Row;
    if m > 0 {
      RowsCount(rule, actions, m - 1, p, q, w);
      RowCount(rule, actions, m - 1, |actions|, p, q, w);
    }
  }

  /** Every line that increments `b` also increments `a`. */
  ghost predicate Covers(rule: Rule, a: string, b: string) {
    forall line :: rule.Matches(b, line) ==> rule.Matches(a, line)
  }

  /** One action covers another exactly when it occurs in it; `b` itself is the line that shows it. */
  lemma CoversIsContains(rule: Rule, a: string, b: string)
    ensures Covers(rule, a, b) <==> Contains(rule.Needle(b), rule.Needle(a))
  {
    ContainsItself(rule.Needle(b));
    if Covers(rule, a, b) {
      assert rule.Matches(b, b);
    }
    if Contains(rule.Needle(b), rule.Needle(a)) {
      forall line | rule.Matches(b, line)
        ensures rule.Matches(a, line)
      {
        ContainsTransitive(rule.Needle(line), rule.Needle(b), rule.Needle(a));
      }
    }
  }

  /** Two actions match exactly the same lines when their needles are the same. */
  lemma SameLinesIsSameNeedle(rule: Rule, a: string, b: string)
    ensures Covers(rule, a, b) && Covers(rule, b, a) <==> rule.Needle(a) == rule.Needle(b)
  {
    CoversIsContains(rule, a, b);
    CoversIsContains(rule, b, a);
    ContainsItself(rule.Needle(a));
    if Covers(rule, a, b) && Covers(rule, b, a) {
      ContainsAntisymmetric(rule.Needle(a), rule.Needle(b));
    }
  }

  /** The warning "a is a substring of b" is given once if every line that matches b also matches a
      but not the other way round, and never otherwise. */
  lemma SubstringExact(rule: Rule, actions: seq<string>, a: string, b: string)
    requires Distinct(actions) && "" !in actions && a in actions && b in actions
    ensures multiset(Rows(rule, actions, |actions|))[Substring(a, b)]
         == if rule.Needle(a) != rule.Needle(b) && Covers(rule, a, b) then 1 else 0
    ensures rule.Needle(a) != rule.Needle(b) && Covers(rule, a, b) <==> Covers(rule, a, b) && !Covers(rule, b, a)
  {
    hide Contains, Rows, Rule.Needle, Covers;
    var p :| 0 <= p < |actions| && actions[p] == a;
    var q :| 0 <= q < |actions| && actions[q] == b;
    RowsCount(rule, actions, |actions|, p, q, Substring(a, b));
    CoversIsContains(rule, a, b);
    SameLinesIsSameNeedle(rule, a, b);
  }

  /** The warning about two actions that differ only in case is given once per pair, in whichever
      order, if the two match exactly the same lines, and never otherwise. */
  lemma TwinExact(rule: Rule, actions: seq<string>, a: string, b: string)
    requires Distinct(actions) && "" !in actions && a in actions && b in actions && a != b
    ensures var w := multiset(Rows(rule, actions, |actions|));
            w[Twin(a, b)] + w[Twin(b, a)] == if Covers(rule, a, b) && Covers(rule, b, a) then 1 else 0
  {
    hide Contains, Rows, Rule.Needle, Covers;
    var p :| 0 <= p < |actions| && actions[p] == a;
    var q :| 0 <= q < |actions| && actions[q] == b;
    RowsCount(rule, actions, |actions|, p, q, Twin(a, b));
    RowsCount(rule, actions, |actions|, q, p, Twin(b, a));
    SameLinesIsSameNeedle(rule, a, b);
  }

  /** In terms of the texts: with a case-sensitive rule one action is remarked upon as a substring of
      another exactly if it occurs in it as it stands, and nothing is a twin of anything. */
  lemma OverlapsVerbatim(rule: Rule, actions: seq<string>, a: string, b: string)
    requires rule.caseSensitive && Distinct(actions) && "" !in actions && a in actions && b in actions && a != b
    ensures var w := multiset(Rows(rule, actions, |actions|));
            && w[Substring(a, b)] == (if exists i: nat :: OccursAt(b, a, i) then 1 else 0)
            && w[Twin(a, b)] == 0 && w[Twin(b, a)] == 0
  {
    hide Contains, Rows, Rule.Needle, Covers;
    SubstringExact(rule, actions, a, b);
    TwinExact(rule, actions, a, b);
    NeedlesOf(rule, a, b);
  }

  /** With the other rule the same holds of the lower-cased texts, and two actions are twins exactly if
      those are equal. */
  lemma OverlapsFolded(rule: Rule, actions: seq<string>, a: string, b: string)
    requires !rule.caseSensitive && Distinct(actions) && "" !in actions && a in actions && b in actions && a != b
    ensures var w, f, h := multiset(Rows(rule, actions, |actions|)), rule.fold(a), rule.fold(b);
            && w[Substring(a, b)] == (if f != h && exists i: nat :: OccursAt(h, f, i) then 1 else 0)
            && w[Twin(a, b)] + w[Twin(b, a)] == if f == h then 1 else 0
  {
    hide Contains, Rows, Rule.Needle, Covers;
    SubstringExact(rule, actions, a, b);
    TwinExact(rule, actions, a, b);
    NeedlesOf(rule, a, b);
  }

  lemma NeedlesOf(rule: Rule, a: string, b: string)
    ensures Covers(rule, a, b) && Covers(rule, b, a) <==> rule.Needle(a) == rule.Needle(b)
    ensures rule.caseSensitive ==>
              && (Covers(rule, a, b) <==> exists i: nat :: OccursAt(b, a, i))
              && (rule.Needle(a) == rule.Needle(b) <==> a == b)
    ensures !rule.caseSensitive ==>
              && (Covers(rule, a, b) <==> exists i: nat :: OccursAt(rule.fold(b), rule.fold(a), i))
              && (rule.Needle(a) == rule.Needle(b) <==> rule.fold(a) == rule.fold(b))
  {
    CoversIsContains(rule, a, b);
    SameLinesIsSameNeedle(rule, a, b);
    ContainsText(b, a);
    ContainsText(rule.fold(b), rule.fold(a));
  }

  // ---------- validation ----------

  function Problems(s: Settings, list: seq<string>): seq<Problem> {
    s.First() + (if list == [] then [NoActions] else []) + EmptyOnes(list) + s.Rest()
  }

  function Remarks(s: Settings, fold: string -> string, list: seq<string>): seq<Warning> {
    Duplicates(list) + Rows(Rule(s.caseSensitive, fold), Normal(list), |Normal(list)|) + s.TtlRemarks()
  }

  predicate Accepts(s: Settings, list: seq<string>) {
    Problems(s, list) == []
  }

  class Config {
    const settings: Settings
    const fold: string -> string
    var actions: seq<string>

    constructor (settings: Settings, fold: string -> string, actions: seq<string>)
      ensures this.settings == settings && this.fold == fold && this.actions == actions
    {
      this.settings, this.fold, this.actions := settings, fold, actions;
    }

    /** Checks everything, reports all problems at once, and drops duplicate actions. */
    method Validate() returns (warnings: seq<Warning>, errs: seq<Problem>)
      modifies `actions
      ensures actions == Normal(old(actions))
      ensures errs == Problems(settings, old(actions))
      ensures warnings == Remarks(settings, fold, old(actions))
    {
      hide Settings.Rest, Settings.TtlRemarks, Rows, Blank;
      warnings, errs := [], [];
      if Blank(settings.logPath) {
        errs := errs + [NoLogPath];
      }
      if |actions| == 0 {
        errs := errs + [NoActions];
      }
      var seen: map<string, bool> := map[];
      var uniq: seq<string> := [];
      ghost var before := errs;
      for i := 0 to |actions|
        invariant actions == old(actions)
        invariant uniq == Normal(actions[..i]) && warnings == Duplicates(actions[..i])
        invariant errs == before + EmptyOnes(actions[..i])
        invariant forall a :: a in seen <==> a in uniq
      {
        var a := actions[i];
        assert actions[..i + 1][..i] == actions[..i];
        if a == "" {
          errs := errs + [EmptyAction(i)];
          continue;
        }
        if a in seen {
          warnings := warnings + [Duplicate(a)];
          continue;
        }
        seen := seen[a := true];
        uniq := uniq + [a];
      }
      assert actions[..|actions|] == actions;
      actions := uniq;
      var more := Overlaps(actions, Rule(settings.caseSensitive, fold));
      warnings := warnings + more + settings.TtlRemarks();
      errs := errs + settings.Rest();
    }
  }

  /** When a list of actions is accepted. */
  lemma AcceptsMeans(s: Settings, list: seq<string>)
    ensures Accepts(s, list) <==> s.Fine() && list != [] && "" !in list
    ensures Accepts(s, list) ==> Distinct(Normal(list)) && Normal(list) != [] && "" !in Normal(list) && s.redisTtl >= 0
  {
    NoEmptyOnes(list);
    NormalMeans(list);
    if list != [] && "" !in list {
      assert list[0] in Normal(list);
    }
  }

  lemma {:induction false} EmptyOnesMeans(list: seq<string>, p: Problem)
    ensures p in EmptyOnes(list) <==> p.EmptyAction? && p.index < |list| && list[p.index] == ""
  {
    if list != [] {
      EmptyOnesMeans(list[..|list| - 1], p);
    }
  }

  /** What each problem means for the operator who reads it. */
  predicate Fault(s: Settings, list: seq<string>, p: Problem) {
    match p
    case NoLogPath => Blank(s.logPath)
    case NoActions => |list| == 0
    case EmptyAction(i) => i < |list| && list[i] == ""
    case BadInterval => s.flushInterval < 1
    case NoLockFile => Blank(s.lockFile)
    case NoRedisHost => Blank(s.redisHost)
    case BadRedisPort => !(1 <= s.redisPort < 0x1_0000)
    case BadRedisDb => !(0 <= s.redisDb)
    case BadRedisTtl => !(0 <= s.redisTtl)
    case BadLevel => s.level != "debug" && s.level != "info" && s.level != "warn" && s.level != "error"
    case BadOutput => s.output != "journald" && s.output != "file"
    case NoLogFile => s.output == "file" && Blank(s.logFile)
    case BadSchedule => Blank(s.schedule) || !s.scheduleParses
    case BadListen => !Reachable(s)
    case BadPath => Reachable(s) && !PlainPath(s.path)
  }

  predicate Reachable(s: Settings) {
    !Blank(s.listen) && s.listenPort.Some? && 1 <= s.listenPort.value < 0x1_0000
  }

  /** A problem is reported exactly if its setting is as it must not be. */
  lemma ProblemsMean(s: Settings, list: seq<string>, p: Problem)
    ensures p in Problems(s, list) <==> Fault(s, list, p)
  {
    hide Blank, GoodPath, PlainPath, EmptyOnes, Settings.Basics, Settings.Storage, Settings.Logs, Settings.Addresses;
    EmptyOnesMeans(list, p);
    FaultOfBasics(s, list, p);
    FaultOfStorage(s, list, p);
    FaultOfLogs(s, list, p);
    FaultOfAddresses(s, list, p);
  }

  lemma FaultOfBasics(s: Settings, list: seq<string>, p: Problem)
    ensures p in s.Basics() <==> (p.BadInterval? || p.NoLockFile?) && Fault(s, list, p)
  {
    hide Blank, PlainPath;
  }

  lemma FaultOfStorage(s: Settings, list: seq<string>, p: Problem)
    ensures p in s.Storage() <==>
            (p.NoRedisHost? || p.BadRedisPort? || p.BadRedisDb? || p.BadRedisTtl?) && Fault(s, list, p)
  {
    hide Blank, PlainPath;
  }

  lemma FaultOfLogs(s: Settings, list: seq<string>, p: Problem)
    ensures p in s.Logs() <==> (p.BadLevel? || p.BadOutput? || p.NoLogFile?) && Fault(s, list, p)
  {
    hide Blank, PlainPath;
  }

  lemma FaultOfAddresses(s: Settings, list: seq<string>, p: Problem)
    ensures p in s.Addresses() <==> (p.BadSchedule? || p.BadListen? || p.BadPath?) && Fault(s, list, p)
  {
    hide Blank, GoodPath, PlainPath;
    PlainIsGood(s.path);
  }

  /** A path the exporter serves as it stands: it begins with a slash, ends with none unless it is the
      root, and holds neither braces nor whitespace. */
  predicate PlainPath(path: string) {
    && |path| > 0 && path[0] == '/' && (|path| == 1 || path[|path| - 1] != '/')
    && '{' !in path && '}' !in path && forall i :: 0 <= i < |path| ==> !IsSpace(path[i])
  }

  lemma PlainIsGood(path: string)
    ensures PlainPath(path) <==> GoodPath(path)
  {
    if |path| == 1 && path[0] == '/' {
      assert path == "/";
    }
  }

  /** Validating an accepted configuration a second time accepts it with the same list, and only the
      warnings about duplicates are gone. */
  lemma SecondValidation(s: Settings, fold: string -> string, list: seq<string>)
    requires Accepts(s, list)
    ensures Accepts(s, Normal(list)) && Normal(Normal(list)) == Normal(list)
    ensures Remarks(s, fold, list) == Duplicates(list) + Remarks(s, fold, Normal(list))
    ensures forall w :: w in Remarks(s, fold, Normal(list)) ==> !w.Duplicate?
  {
    hide Rows, Settings.Rest, Settings.First, Normal, Duplicates, Problems, Blank, Rule.Needle, Contains;
    AcceptsMeans(s, list);
    AcceptsMeans(s, Normal(list));
    AlreadyNormal(Normal(list));
    NoDuplicateInRows(Rule(s.caseSensitive, fold), Normal(list), |Normal(list)|);
    assert Remarks(s, fold, Normal(list)) == Rows(Rule(s.caseSensitive, fold), Normal(list),
                   |Normal(list)|) + s.TtlRemarks();
  }

  lemma {:induction false} NoDuplicateInRow(rule: Rule, actions: seq<string>, i: nat, n: nat)
    requires i < |actions| && n <= |actions|
    ensures forall w :: w in Row(rule, actions, i, n) ==> !w.Duplicate?
  {
    if n > 0 {
      NoDuplicateInRow(rule, actions, i, n - 1);
    }
  }

  lemma {:induction false} NoDuplicateInRows(rule: Rule, actions: seq<string>, m: nat)
    requires m <= |actions|
    ensures forall w :: w in Rows(rule, actions, m) ==> !w.Duplicate?
  {
    hide Row;
    if m > 0 {
      NoDuplicateInRows(rule, actions, m - 1);
      NoDuplicateInRow(rule, actions, m - 1, |actions|);
    }
  }

  /** The verdict of a second validation can differ: precisely when the settings are fine and the list
      has both an empty and a non-empty action, because the first validation drops the empty one. */
  lemma VerdictStable(s: Settings, list: seq<string>)
    ensures (Accepts(s, list) <==> Accepts(s, Normal(list))) <==>
            !s.Fine() || "" !in list || forall a :: a in list ==> a == ""
  {
    NormalMeans(list);
    AcceptsMeans(s, list);
    AcceptsMeans(s, Normal(list));
    if exists a :: a in list && a != "" {
      var a :| a in list && a != "";
      assert a in Normal(list);
    } else if Normal(list) != [] {
      assert Normal(list)[0] in list;
    }
  }

  lemma RejectedThenAccepted(s: Settings)
    requires s.Fine()
    ensures !Accepts(s, ["a", ""]) && Accepts(s, Normal(["a", ""]))
  {
    assert "" in ["a", ""] && "a" in ["a", ""];
    VerdictStable(s, ["a", ""]);
    AcceptsMeans(s, ["a", ""]);
  }
}
