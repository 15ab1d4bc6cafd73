/** The Redis key schema: the flat key names, what is stored under them, and the text of the
    monitoring value. */
module Keyspace {
  import opened Prelude

  const KEY_PREFIX := "logstat:"

  function CounterKey(host: string, action: string): string {
    KEY_PREFIX + "counter:" + host + ":" + action
  }

  function HeartbeatKey(host: string, action: string): string {
    KEY_PREFIX + "heartbeat:" + host + ":" + action
  }

  /** What the monitoring value says.  `time` is the RFC 3339 text of the moment it was written. */
  datatype Heartbeat = Heartbeat(host: string, time: string, action: string, lines: int)

  /** A stored value: an integer, a monitoring value, or anything else somebody put there.  Redis
      stores the monitoring value as the text `Render` gives for it. */
  datatype Value = Number(n: int) | Beat(beat: Heartbeat) | Foreign(text: string)

  /** A key's value and the moment it expires, if it does. */
  datatype Entry = Entry(value: Value, expiry: Option<nat>)

  type Db = map<string, Entry>

  function Find(db: Db, key: string): Option<Entry> {
    if key in db then Some(db[key]) else None
  }

  function ValueOf(e: Option<Entry>): Option<Value> {
    if e.Some? then Some(e.value.value) else None
  }

  predicate IsNumber(e: Option<Entry>) {
    e.Some? && e.value.value.Number?
  }

  /** The number of lines a counter key stands for; a missing or foreign value stands for none. */
  function Val(e: Option<Entry>): int {
    if IsNumber(e) then e.value.value.n else 0
  }

  /** The entry a write at time `now` leaves behind. */
  function Stamp(value: Value, ttl: nat, now: nat): Entry {
    Entry(value, if ttl == 0 then None else Some(now + ttl))
  }

  /** The monitoring value of a key reports exactly what its counter holds. */
  predicate Agree(counter: Option<Entry>, heartbeat: Option<Entry>) {
    && IsNumber(counter)
    && heartbeat.Some? && heartbeat.value.value.Beat?
    && heartbeat.value.value.beat.lines == Val(counter)
  }

  /** The keys of one host never collide: counters with counters only for the same action, and
      counters with monitoring values not at all. */
  lemma KeysApart(host: string)
    ensures forall a, b {:trigger CounterKey(host, a), CounterKey(host, b)} ::
              CounterKey(host, a) == CounterKey(host, b) ==> a == b
    ensures forall a, b {:trigger HeartbeatKey(host, a), HeartbeatKey(host, b)} ::
              HeartbeatKey(host, a) == HeartbeatKey(host, b) ==> a == b
    ensures forall a, b {:trigger CounterKey(host, a), HeartbeatKey(host, b)} ::
              CounterKey(host, a) != HeartbeatKey(host, b)
  {
    forall a, b
      ensures CounterKey(host, a) == CounterKey(host, b) ==> a == b
      ensures HeartbeatKey(host, a) == HeartbeatKey(host, b) ==> a == b
    {
      SameSuffix(KEY_PREFIX + "counter:" + host + ":", a, b);
      SameSuffix(KEY_PREFIX + "heartbeat:" + host + ":", a, b);
    }
    forall a, b
      ensures CounterKey(host, a) != HeartbeatKey(host, b)
    {
      CounterIsNoHeartbeat(host, a, host, b);
    }
  }

  lemma CounterIsNoHeartbeat(host: string, a: string, other: string, b: string)
    ensures CounterKey(host, a) != HeartbeatKey(other, b)
  {
    assert CounterKey(host, a)[8] == 'c' && HeartbeatKey(other, b)[8] == 'h';
  }

  lemma SameSuffix(prefix: string, a: string, b: string)
    ensures prefix + a == prefix + b ==> a == b
  {
    assert (prefix + a)[|prefix|..] == a && (prefix + b)[|prefix|..] == b;
  }

  predicate NoColon(s: string) {
    ':' !in s
  }

  /** Across hosts the schema stays injective as long as host names hold no colon, whatever colons
      the actions hold. */
  lemma KeysInjective(host: string, a: string, other: string, b: string)
    requires NoColon(host) && NoColon(other)
    ensures CounterKey(host, a) == CounterKey(other, b) <==> host == other && a == b
    ensures HeartbeatKey(host, a) == HeartbeatKey(other, b) <==> host == other && a == b
  {
    if CounterKey(host, a) == CounterKey(other, b) {
      var p := KEY_PREFIX + "counter:";
      assert CounterKey(host, a) == p + (host + ":" + a) && CounterKey(other, b) == p + (other + ":" + b);
      SameSuffix(p, host + ":" + a, other + ":" + b);
      SplitAtColon(host, a, other, b);
    }
    if HeartbeatKey(host, a) == HeartbeatKey(other, b) {
      var p := KEY_PREFIX + "heartbeat:";
      assert HeartbeatKey(host, a) == p + (host + ":" + a) && HeartbeatKey(other, b) == p + (other + ":" + b);
      SameSuffix(p, host + ":" + a, other + ":" + b);
      SplitAtColon(host, a, other, b);
    }
  }

  lemma SplitAtColon(host: string, a: string, other: string, b: string)
    requires NoColon(host) && NoColon(other)
    requires host + ":" + a == other + ":" + b
    ensures host == other && a == b
  {
    FirstColon(host, a);
    FirstColon(other, b);
    var s := host + ":" + a;
    assert s[..|host|] == host && s[..|other|] == (other + ":" + b)[..|other|] == other;
    assert s[|host| + 1..] == a && (other + ":" + b)[|other| + 1..] == b;
  }

  function IndexOfColon(s: string): nat {
    if s == [] || s[0] == ':' then 0 else 1 + IndexOfColon(s[1..])
  }

  lemma {:induction false} FirstColon(host: string, rest: string)
    requires NoColon(host)
    ensures IndexOfColon(host + ":" + rest) == |host|
  {
    var s := host + ":" + rest;
    if host != [] {
      FirstColon(host[1..], rest);
      assert s[1..] == host[1..] + ":" + rest;
    }
  }

  /** A host name with a colon does collide: the condition above cannot be dropped. */
  lemma ColonHostsCollide()
    ensures CounterKey("a:b", "c") == CounterKey("a", "b:c")
  {
    assert "a:b" + ":" + "c" == "a" + ":" + "b:c";
    assert CounterKey("a:b", "c") == KEY_PREFIX + "counter:" + ("a:b" + ":" + "c");
    assert CounterKey("a", "b:c") == KEY_PREFIX + "counter:" + ("a" + ":" + "b:c");
  }

  // ---------- what an operator reads off a key ----------

  /** The parts of a key: what it is for, whose it is, and the action. */
  datatype KeyParts = KeyParts(kind: string, host: string, action: string)

  /** Splits a key at its first three colons. */
  function ReadKey(key: string): Option<KeyParts> {
    var i := IndexOfColon(key);
    if |key| <= i || key[..i] != "logstat" then None
    else
      var rest := key[i + 1..];
      var j := IndexOfColon(rest);
      if |rest| <= j then None
      else
        var name := rest[j + 1..];
        var k := IndexOfColon(name);
        if |name| <= k then None else Some(KeyParts(rest[..j], name[..k], name[k + 1..]))
  }

  lemma SplitsAtColon(a: string, b: string)
    requires NoColon(a)
    ensures var s := a + ":" + b; var i := IndexOfColon(s); i < |s| && s[..i] == a && s[i + 1..] == b
  {
    FirstColon(a, b);
  }

  /** A reader who splits a key at its colons finds what it is for, the host and the action, whatever
      colons the action holds. */
  lemma KeysRead(host: string, action: string)
    requires NoColon(host)
    ensures ReadKey(CounterKey(host, action)) == Some(KeyParts("counter", host, action))
    ensures ReadKey(HeartbeatKey(host, action)) == Some(KeyParts("heartbeat", host, action))
  {
    hide IndexOfColon, ReadKey;
    CounterReads(host, action);
    HeartbeatReads(host, action);
  }

  lemma CounterReads(host: string, action: string)
    requires NoColon(host)
    ensures ReadKey(CounterKey(host, action)) == Some(KeyParts("counter", host, action))
  {
    hide IndexOfColon, ReadKey;
    KeyReads("counter", host, action);
    Joined("logstat", "counter", host, action);
    assert "logstat" + ":" == KEY_PREFIX && "counter" + ":" == "counter:";
  }

  lemma HeartbeatReads(host: string, action: string)
    requires NoColon(host)
    ensures ReadKey(HeartbeatKey(host, action)) == Some(KeyParts("heartbeat", host, action))
  {
    hide IndexOfColon, ReadKey;
    KeyReads("heartbeat", host, action);
    Joined("logstat", "heartbeat", host, action);
    assert "logstat" + ":" == KEY_PREFIX && "heartbeat" + ":" == "heartbeat:";
  }

  lemma Joined(prefix: string, kind: string, host: string, action: string)
    ensures prefix + ":" + (kind + ":" + (host + ":" + action)) == (prefix + ":") + (kind + ":") + host + ":" + action
  {
  }

  lemma KeyReads(kind: string, host: string, action: string)
    requires NoColon(kind) && NoColon(host)
    ensures ReadKey("logstat" + ":" + (kind + ":" + (host + ":" + action))) == Some(KeyParts(kind, host, action))
  {
    hide IndexOfColon;
    SplitsAtColon("logstat", kind + ":" + (host + ":" + action));
    SplitsAtColon(kind, host + ":" + action);
    SplitsAtColon(host, action);
  }

  const DIGITS := "0123456789"

  /** The decimal text of a number. */
  function Decimal(n: int): string
    decreases n < 0, if n < 0 then -n else n
  {
    if n < 0 then "-" + Decimal(-n)
    else if n < 10 then [DIGITS[n]]
    else Decimal(n / 10) + [DIGITS[n % 10]]
  }

  function Render(b: Heartbeat): string {
    "server=" + b.host + " time=" + b.time + " type=" + b.action + " lines=" + Decimal(b.lines)
  }

  /** The value of a digit, for the reader of a monitoring value. */
  function DigitValue(c: char): int {
    c as int - '0' as int
  }

  function Natural(s: string): int {
    if s == [] then 0
    else Natural(s[..|s| - 1]) * 10 + DigitValue(s[|s| - 1])
  }

  function Integer(s: string): int {
    if s != [] && s[0] == '-' then -Natural(s[1..]) else Natural(s)
  }

  /** What follows the last equals sign of a text. */
  function AfterLastEquals(s: string): string {
    if s == [] then []
    else if s[|s| - 1] == '=' then []
    else AfterLastEquals(s[..|s| - 1]) + [s[|s| - 1]]
  }

  lemma {:induction false} NaturalOfDecimal(n: nat)
    ensures Natural(Decimal(n)) == n
    ensures Decimal(n) != [] && Decimal(n)[0] != '-' && '=' !in Decimal(n)
  {
    DigitsAreDigits(n % 10);
    if n < 10 {
      assert Decimal(n) == [DIGITS[n]] && Decimal(n)[..0] == [];
    } else {
      NaturalOfDecimal(n / 10);
      assert Decimal(n)[..|Decimal(n)| - 1] == Decimal(n / 10);
    }
  }

  lemma DigitsAreDigits(d: nat)
    requires d < 10
    ensures DigitValue(DIGITS[d]) == d && DIGITS[d] != '-' && DIGITS[d] != '='
  {
    assert DIGITS == ['0', '1', '2', '3', '4', '5', '6', '7', '8', '9'];
  }

  lemma {:induction false} LastEqualsSplits(s: string, t: string)
    requires '=' !in t
    ensures AfterLastEquals(s + "=" + t) == t
  {
    if t == [] {
      assert s + "=" + t == s + "=";
    } else {
      var n := |t| - 1;
      LastEqualsSplits(s, t[..n]);
      assert (s + "=" + t)[..|s + "=" + t| - 1] == s + "=" + t[..n];
      assert t == t[..n] + [t[n]];
    }
  }

  // ---------- what the monitoring side reads ----------

  function IndexOfSpace(s: string): nat {
    if s == [] || s[0] == ' ' then 0 else 1 + IndexOfSpace(s[1..])
  }

  lemma {:induction false} FirstSpace(word: string, rest: string)
    requires ' ' !in word
    ensures var s := word + " " + rest;
            var i := IndexOfSpace(s); i < |s| && s[..i] == word && s[i + 1..] == rest
  {
    var s := word + " " + rest;
    if word != [] {
      FirstSpace(word[1..], rest);
      assert s[1..] == word[1..] + " " + rest;
      assert s[..|word|] == word;
    }
  }

  /** The value of a field such as `server=web1`. */
  function FieldValue(name: string, field: string): Option<string> {
    if |name| < |field| && field[..|name|] == name && field[|name|] == '=' then Some(field[|name| + 1..]) else None
  }

  /** Reads the text of a monitoring value: two words, then an action, which may hold anything, and last
      the number of lines. */
  function ReadBeat(s: string): Option<Heartbeat> {
    var i := IndexOfSpace(s);
    if |s| <= i then None
    else
      var rest := s[i + 1..];
      var j := IndexOfSpace(rest);
      if |rest| <= j then None
      else
        var tail := rest[j + 1..];
        var lines := AfterLastEquals(tail);
        var host, time := FieldValue("server", s[..i]), FieldValue("time", rest[..j]);
        if |tail| < |lines| + 7 || tail[|tail| - |lines| - 7..|tail| - |lines|] != " lines=" then None
        else
          var action := FieldValue("type", tail[..|tail| - |lines| - 7]);
          if host.None? || time.None? || action.None? then None
          else Some(Heartbeat(host.value, time.value, action.value, Integer(lines)))
  }

  lemma FieldReads(name: string, value: string)
    ensures FieldValue(name, name + "=" + value) == Some(value)
  {
    var field := name + "=" + value;
    assert field[..|name|] == name && field[|name| + 1..] == value;
  }

  /** The whole monitoring value is read back, for host names and times without spaces. */
  lemma BeatReads(b: Heartbeat)
    requires ' ' !in b.host && ' ' !in b.time
    ensures ReadBeat(Render(b)) == Some(b)
  {
    hide IndexOfSpace, AfterLastEquals, Integer, Decimal, FieldValue;
    var first, second, last := "server" + "=" + b.host, "time" + "=" + b.time, "type" + "=" + b.action;
    var lines := Decimal(b.lines);
    var tail := last + " lines" + "=" + lines;
    var rest := second + " " + tail;
    assert Render(b) == first + " " + rest;
    FirstSpace(first, rest);
    FirstSpace(second, tail);
    DecimalReads(b.lines);
    LastEqualsSplits(last + " lines", lines);
    assert tail[..|tail| - |lines| - 7] == last;
    assert tail[|tail| - |lines| - 7..|tail| - |lines|] == " lines=";
    FieldReads("server", b.host);
    FieldReads("time", b.time);
    FieldReads("type", b.action);
  }

  lemma DecimalReads(n: int)
    ensures Integer(Decimal(n)) == n && '=' !in Decimal(n)
  {
    hide Natural;
    if n < 0 {
      NaturalOfDecimal(-n);
      assert Decimal(n)[1..] == Decimal(-n);
    } else {
      NaturalOfDecimal(n);
    }
  }

  /** The external reader recovers the number of lines from the text of a monitoring value, whatever
      spaces or equals signs the host and the action hold. */
  lemma ReaderRecoversLines(b: Heartbeat)
    ensures Integer(AfterLastEquals(Render(b))) == b.lines
  {
    hide Natural, AfterLastEquals;
    var head := "server=" + b.host + " time=" + b.time + " type=" + b.action + " lines";
    assert Render(b) == head + "=" + Decimal(b.lines);
    if b.lines < 0 {
      NaturalOfDecimal(-b.lines);
      assert Decimal(b.lines)[1..] == Decimal(-b.lines);
      LastEqualsSplits(head, Decimal(b.lines));
    } else {
      NaturalOfDecimal(b.lines);
      LastEqualsSplits(head, Decimal(b.lines));
    }
  }
}
