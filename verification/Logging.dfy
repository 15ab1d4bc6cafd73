/** The daemon's own log: one record is one line of text, and a reader can take it apart again. */
module LogFormat {
  import opened Prelude

  /** A structured attribute, its value already resolved.  `Nil` is the missing value; everything that
      is not a group is known by its text. */
  datatype Attr = Attr(key: string, value: Value)
  datatype Value = Nil | Text(text: string) | Group(attrs: seq<Attr>)

  /** What is left of a tree of attributes on the line: dotted keys and texts. */
  datatype Field = Field(key: string, text: string)

  datatype Record = Record(time: string, level: int, message: string, attrs: seq<Attr>)

  const LEVEL_INFO := 0
  const LEVEL_WARN := 4
  const LEVEL_ERROR := 8

  // ---------- what a tree of attributes means ----------

  function Dotted(groups: seq<string>): string {
    if groups == [] then "" else Dotted(groups[..|groups| - 1]) + groups[|groups| - 1] + "."
  }

  function TextOf(v: Value): string
    requires !v.Group?
  {
    if v.Nil? then "<nil>" else v.text
  }

  function Flatten(groups: seq<string>, a: Attr): seq<Field>
    decreases a
  {
    if a == Attr("", Nil) then []
    else if a.value.Group? then FlattenAll(Under(groups, a.key), a.value.attrs)
    else [Field(Dotted(groups) + a.key, TextOf(a.value))]
  }

  function FlattenAll(groups: seq<string>, attrs: seq<Attr>): seq<Field>
    decreases attrs
  {
    if attrs == [] then []
    else FlattenAll(groups, attrs[..|attrs| - 1]) + Flatten(groups, attrs[|attrs| - 1])
  }

  /** A group without a key adds nothing to the keys of its members. */
  function Under(groups: seq<string>, key: string): seq<string> {
    if key == "" then groups else groups + [key]
  }

  // ---------- the printer ----------

  function Escape(c: char): string {
    match c
    case '"' => "\\\""
    case '\\' => "\\\\"
    case '\n' => "\\n"
    case '\t' => "\\t"
    case '\r' => "\\r"
    case '\U{07}' => "\\a"
    case '\U{08}' => "\\b"
    case '\U{0C}' => "\\f"
    case '\U{0B}' => "\\v"
    case _ => [c]
  }

  function EscapeAll(s: string): string {
    if s == "" then "" else Escape(s[0]) + EscapeAll(s[1..])
  }

  predicate Delimits(c: char) {
    c == ' ' || c == '\t' || c == '\n' || c == '"' || c == '='
  }

  function Quote(s: string): string {
    if s == "" then "\"\""
    else if exists c :: c in s && Delimits(c) then "\"" + EscapeAll(s) + "\""
    else s
  }

  /** A text stands for itself unless it is empty or holds something that would end or split it. */
  lemma QuotedWhen(s: string)
    ensures Quote(s) == s <==> s != "" && ' ' !in s && '\t' !in s && '\n' !in s && '"' !in s && '=' !in s
  {
    if exists c :: c in s && Delimits(c) {
      EscapesGrow(s);
    }
  }

  lemma {:induction false} EscapesGrow(s: string)
    ensures |EscapeAll(s)| >= |s|
  {
    if s != "" {
      EscapesGrow(s[1..]);
    }
  }

  function Printed(f: Field): string {
    " " + f.key + "=" + Quote(f.text)
  }

  function Print(fields: seq<Field>): string {
    if fields == [] then "" else Printed(fields[0]) + Print(fields[1..])
  }

  function LevelName(level: int): string {
    if level < LEVEL_INFO then "DEBUG"
    else if level < LEVEL_WARN then "INFO "
    else if level < LEVEL_ERROR then "WARN "
    else "ERROR"
  }

  /** The names of the four standard levels fill five columns, and a level in between has the name of the
      nearest standard level below it. */
  lemma LevelNames(level: int)
    ensures LevelName(-4) == "DEBUG" && LevelName(0) == "INFO " && LevelName(4) == "WARN " && LevelName(8) == "ERROR"
    ensures |LevelName(level)| == 5
    ensures LevelName(level) == if level < 0 then "DEBUG" else if level >= 8 then "ERROR" else LevelName(level / 4 * 4)
  {
  }

  /** The groups of an attribute appear in its key from the outermost on, each with a dot after it. */
  lemma {:induction false} DottedConcat(outer: seq<string>, inner: seq<string>)
    ensures Dotted(outer + inner) == Dotted(outer) + Dotted(inner)
  {
    hide Dotted;
    if inner == [] {
      assert outer + inner == outer;
      NothingDotted(outer);
    } else {
      var p, name := inner[..|inner| - 1], inner[|inner| - 1];
      assert inner == p + [name] && outer + inner == outer + p + [name];
      DottedConcat(outer, p);
      DottedOneMore(p, name);
      DottedOneMore(outer + p, name);
      Associates(Dotted(outer), Dotted(p), name + ".");
    }
  }

  lemma DottedOneMore(groups: seq<string>, name: string)
    ensures Dotted(groups + [name]) == Dotted(groups) + (name + ".")
  {
    assert (groups + [name])[..|groups|] == groups;
    Associates(Dotted(groups), name, ".");
  }

  lemma NothingDotted(groups: seq<string>)
    ensures Dotted([]) == "" && Dotted(groups) + "" == Dotted(groups)
  {
  }

  lemma Associates(a: string, b: string, c: string)
    ensures a + b + c == a + (b + c)
  {
  }

  lemma DottedOne(name: string)
    ensures Dotted([name]) == name + "."
  {
    NothingDotted([]);
    DottedOneMore([], name);
    assert [] + [name] == [name] && "" + (name + ".") == name + ".";
  }

  lemma {:induction false} PrintConcat(f: seq<Field>, g: seq<Field>)
    ensures Print(f + g) == Print(f) + Print(g)
  {
    hide Print, Printed;
    if f == [] {
      NothingPrinted();
      assert f + g == g;
    } else {
      PrintConcat(f[1..], g);
      assert (f + g)[1..] == f[1..] + g;
      PrintStep(f);
      PrintStep(f + g);
    }
  }

  lemma PrintStep(f: seq<Field>)
    requires f != []
    ensures Print(f) == Printed(f[0]) + Print(f[1..])
  {
  }

  lemma NothingPrinted()
    ensures Print([]) == ""
  {
  }

  class Builder {
    var text: string

    constructor ()
      ensures text == ""
    {
      text := "";
    }

    method Write(s: string)
      modifies this
      ensures text == old(text) + s
    {
      text := text + s;
    }
  }

  method AppendAttr(b: Builder, groups: seq<string>, a: Attr)
    modifies b
    ensures b.text == old(b.text) + Print(Flatten(groups, a))
    decreases a
  {
    hide Quote, Dotted;
    if a == Attr("", Nil) {
      return;
    }
    if a.value.Group? {
      if |a.value.attrs| == 0 {
        return;
      }
      AppendAll(b, Under(groups, a.key), a.value.attrs);
      return;
    }
    b.Write(" ");
    WritePrefix(b, groups);
    b.Write(a.key);
    b.Write("=");
    b.Write(Quote(TextOf(a.value)));
    var f := Field(Dotted(groups) + a.key, TextOf(a.value));
    assert Print([f]) == Printed(f) + Print([]);
    assert Flatten(groups, a) == [f];
  }

  method WritePrefix(b: Builder, groups: seq<string>)
    modifies b
    ensures b.text == old(b.text) + Dotted(groups)
  {
    for i := 0 to |groups|
      invariant b.text == old(b.text) + Dotted(groups[..i])
    {
      assert groups[..i + 1][..i] == groups[..i];
      b.Write(groups[i]);
      b.Write(".");
    }
    assert groups[..|groups|] == groups;
  }

  method AppendAll(b: Builder, groups: seq<string>, attrs: seq<Attr>)
    modifies b
    ensures b.text == old(b.text) + Print(FlattenAll(groups, attrs))
    decreases attrs
  {
    hide Print, Flatten;
    assert Print([]) == "" by {
      NothingPrinted();
    }
    for i := 0 to |attrs|
      invariant b.text == old(b.text) + Print(FlattenAll(groups, attrs[..i]))
    {
      assert attrs[..i + 1][..i] == attrs[..i];
      AppendAttr(b, groups, attrs[i]);
      PrintConcat(FlattenAll(groups, attrs[..i]), Flatten(groups, attrs[i]));
    }
    assert attrs[..|attrs|] == attrs;
  }

  /** A handler carries the attributes and groups added so far; adding makes a copy. */
  datatype Handler = Handler(attrs: seq<Attr>, groups: seq<string>) {

    function WithAttrs(more: seq<Attr>): Handler {
      this.(attrs := attrs + more)
    }

    function WithGroup(name: string): Handler {
      if name == "" then this else this.(groups := groups + [name])
    }

    /** Everything a record says, in the order of the line. */
    function Fields(r: Record): seq<Field> {
      FlattenAll(groups, attrs) + FlattenAll(groups, r.attrs)
    }

    method Handle(r: Record) returns (line: string)
      ensures line == Line(r.time, LevelName(r.level), r.message, Fields(r))
    {
      hide Print, FlattenAll;
      var b := new Builder();
      b.Write(r.time);
      b.Write(" ");
      b.Write(LevelName(r.level));
      b.Write(" ");
      b.Write(r.message);
      AppendAll(b, groups, attrs);
      AppendAll(b, groups, r.attrs);
      PrintConcat(FlattenAll(groups, attrs), FlattenAll(groups, r.attrs));
      b.Write("\n");
      line := b.text;
    }
  }

  function Line(time: string, level: string, message: string, fields: seq<Field>): string {
    time + " " + level + " " + (message + Print(fields)) + "\n"
  }

  // ---------- the reader ----------

  function IndexOf(s: string, c: char): (i: nat)
    ensures i <= |s| && (i < |s| ==> s[i] == c)
  {
    if s == "" || s[0] == c then 0 else 1 + IndexOf(s[1..], c)
  }

  function LastIndexOf(s: string, c: char): (i: nat)
    ensures i <= |s|
  {
    if s == "" then 0 else if s[|s| - 1] == c then |s| - 1 else LastIndexOf(s[..|s| - 1], c)
  }

  function Unescape(c: char): char {
    match c
    case 'n' => '\n'
    case 't' => '\t'
    case 'r' => '\r'
    case 'a' => '\U{07}'
    case 'b' => '\U{08}'
    case 'f' => '\U{0C}'
    case 'v' => '\U{0B}'
    case _ => c
  }

  /** Reads up to the closing quote: the text, and what follows it. */
  function Unquote(s: string): (r: Option<(string, string)>)
    ensures r.Some? ==> |r.value.1| < |s|
    decreases |s|
  {
    if s == "" then None
    else if s[0] == '"' then Some(("", s[1..]))
    else if s[0] == '\\' then
      if |s| == 1 then None else Prepend(Unescape(s[1]), Unquote(s[2..]))
    else Prepend(s[0], Unquote(s[1..]))
  }

  function Prepend(c: char, r: Option<(string, string)>): Option<(string, string)> {
    if r.None? then None else Some(([c] + r.value.0, r.value.1))
  }

  function ReadText(s: string): (r: Option<(string, string)>)
    ensures r.Some? ==> |r.value.1| <= |s|
  {
    if s != "" && s[0] == '"' then Unquote(s[1..])
    else Some((s[..IndexOf(s, ' ')], s[IndexOf(s, ' ')..]))
  }

  function ReadFields(s: string): Option<seq<Field>>
    decreases |s|
  {
    if s == "" then Some([])
    else
      var e := IndexOf(s, '=');
      if s[0] != ' ' || e == |s| then None
      else
        var text := ReadText(s[e + 1..]);
        if text.None? then None
        else
          var rest := ReadFields(text.value.1);
          if rest.None? then None else Some([Field(s[1..e], text.value.0)] + rest.value)
  }

  /** The first equals sign belongs to the first key, and that key begins after the last space before it. */
  function ReadBody(s: string): Option<(string, seq<Field>)> {
    var e := IndexOf(s, '=');
    var m := if e == |s| then e else LastIndexOf(s[..e], ' ');
    var fields := ReadFields(s[m..]);
    if fields.None? then None else Some((s[..m], fields.value))
  }

  datatype Reading = Reading(time: string, level: string, message: string, fields: seq<Field>)

  function ReadLine(line: string): Option<Reading> {
    var t := IndexOf(line, ' ');
    if t + 7 >= |line| then None
    else
      var body := ReadBody(line[t + 7..|line| - 1]);
      if body.None? then None else Some(Reading(line[..t], line[t + 1..t + 6], body.value.0, body.value.1))
  }

  // ---------- the reader undoes the printer ----------

  lemma {:induction false} IndexOfFirst(s: string, c: char, t: string)
    requires c !in s
    ensures IndexOf(s, c) == |s| && IndexOf(s + [c] + t, c) == |s|
  {
    if s == "" {
      assert (s + [c] + t)[0] == c;
    } else {
      IndexOfFirst(s[1..], c, t);
      assert (s + [c] + t)[1..] == s[1..] + [c] + t;
    }
  }

  lemma {:induction false} LastIndexOfLast(s: string, c: char, t: string)
    requires c !in t
    ensures LastIndexOf(s + [c] + t, c) == |s|
  {
    var u := s + [c] + t;
    if t == "" {
      assert u[|u| - 1] == c;
    } else {
      LastIndexOfLast(s, c, t[..|t| - 1]);
      assert u[..|u| - 1] == s + [c] + t[..|t| - 1];
    }
  }

  lemma {:induction false} UnquoteEscapes(s: string, rest: string)
    ensures Unquote(EscapeAll(s) + "\"" + rest) == Some((s, rest))
  {
    if s == "" {
      assert EscapeAll(s) + "\"" + rest == "\"" + rest;
    } else {
      UnquoteEscapes(s[1..], rest);
      var tail := EscapeAll(s[1..]) + "\"" + rest;
      assert EscapeAll(s) + "\"" + rest == Escape(s[0]) + tail;
      UnquoteOne(s[0], tail);
      assert [s[0]] + s[1..] == s;
    }
  }

  /** A character is printed as itself, or as a backslash and a letter that stands for it. */
  lemma EscapeShape(c: char)
    ensures var e := Escape(c);
            || (e == [c] && c != '"' && c != '\\')
            || (|e| == 2 && e[0] == '\\' && Unescape(e[1]) == c)
  {
  }

  lemma UnquoteOne(c: char, tail: string)
    ensures Unquote(Escape(c) + tail) == Prepend(c, Unquote(tail))
  {
    hide Escape, Unescape, Prepend;
    EscapeShape(c);
    var e := Escape(c);
    var s := e + tail;
    if |e| == 1 {
      assert s[0] == c && s[1..] == tail;
    } else {
      assert s[0] == '\\' && s[1] == e[1] && s[2..] == tail;
    }
  }

  lemma ReadRaw(s: string, rest: string)
    requires s != "" && s[0] != '"' && ' ' !in s && (rest == "" || rest[0] == ' ')
    ensures ReadText(s + rest) == Some((s, rest))
  {
    hide Unquote, IndexOf;
    if rest == "" {
      IndexOfFirst(s, ' ', "");
      assert s + rest == s;
    } else {
      IndexOfFirst(s, ' ', rest[1..]);
      assert s + rest == s + [' '] + rest[1..];
    }
    assert (s + rest)[..|s|] == s && (s + rest)[|s|..] == rest;
  }

  lemma ReadQuoted(s: string, rest: string)
    ensures ReadText("\"" + EscapeAll(s) + "\"" + rest) == Some((s, rest))
  {
    hide Unquote, EscapeAll, IndexOf;
    UnquoteEscapes(s, rest);
    assert ("\"" + EscapeAll(s) + "\"" + rest)[1..] == EscapeAll(s) + "\"" + rest;
  }

  /** A value is read back whatever spaces, quotes, equals signs, backslashes or newlines it holds. */
  lemma ReadTextQuotes(s: string, rest: string)
    requires rest == "" || rest[0] == ' '
    ensures ReadText(Quote(s) + rest) == Some((s, rest))
  {
    hide ReadText;
    if s == "" {
      assert EscapeAll(s) == "" && Quote(s) == "\"" + EscapeAll(s) + "\"";
      ReadQuoted(s, rest);
    } else if exists c :: c in s && Delimits(c) {
      ReadQuoted(s, rest);
    } else {
      assert Delimits(' ') && !Delimits(s[0]);
      ReadRaw(s, rest);
    }
  }

  predicate PlainKey(key: string) {
    ' ' !in key && '=' !in key && '\n' !in key
  }

  predicate PlainFields(fields: seq<Field>) {
    forall f :: f in fields ==> PlainKey(f.key)
  }

  lemma PrintBegins(fields: seq<Field>)
    ensures Print(fields) == "" <==> fields == []
    ensures fields != [] ==> Print(fields)[0] == ' '
  {
  }

  lemma {:induction false} ReadFieldsPrints(fields: seq<Field>)
    requires PlainFields(fields)
    ensures ReadFields(Print(fields)) == Some(fields)
  {
    hide Quote, ReadText;
    if fields != [] {
      var f, more := fields[0], Print(fields[1..]);
      assert PlainKey(f.key);
      ReadFieldsPrints(fields[1..]);
      PrintBegins(fields[1..]);
      ReadTextQuotes(f.text, more);
      var s := Print(fields);
      var tail := Quote(f.text) + more;
      assert s == (" " + f.key) + ['='] + tail;
      IndexOfFirst(" " + f.key, '=', tail);
      assert s[1..1 + |f.key|] == f.key && s[2 + |f.key|..] == tail;
      assert fields == [f] + fields[1..];
    }
  }

  /** Where the message ends is found again. */
  lemma MessageEnds(message: string, key: string, tail: string)
    requires '=' !in message && PlainKey(key)
    ensures var s := message + " " + key + "=" + tail;
            && IndexOf(s, '=') == |message| + 1 + |key| < |s|
            && LastIndexOf(s[..IndexOf(s, '=')], ' ') == |message|
  {
    hide IndexOf, LastIndexOf;
    var head := message + [' '] + key;
    var s := message + " " + key + "=" + tail;
    assert s == head + ['='] + tail;
    IndexOfFirst(head, '=', tail);
    assert s[..|head|] == head;
    LastIndexOfLast(message, ' ', key);
  }

  lemma ReadBodyPrints(message: string, fields: seq<Field>)
    requires '=' !in message && PlainFields(fields)
    ensures ReadBody(message + Print(fields)) == Some((message, fields))
  {
    hide Quote, ReadFields, IndexOf, LastIndexOf, PlainKey;
    var s := message + Print(fields);
    ReadFieldsPrints(fields);
    if fields == [] {
      IndexOfFirst(message, '=', "");
      assert s == message && s[|s|..] == "";
    } else {
      var f := fields[0];
      var tail := Quote(f.text) + Print(fields[1..]);
      assert s == message + " " + f.key + "=" + tail;
      MessageEnds(message, f.key, tail);
      assert s[..|message|] == message && s[|message|..] == Print(fields);
    }
  }

  /** The line of a record can be taken apart again. */
  lemma ReadLinePrints(time: string, level: int, message: string, fields: seq<Field>)
    requires ' ' !in time && '=' !in message && PlainFields(fields)
    ensures ReadLine(Line(time, LevelName(level), message, fields))
         == Some(Reading(time, LevelName(level), message, fields))
  {
    hide Print, ReadBody, PlainFields;
    var name, body := LevelName(level), message + Print(fields);
    var line := Line(time, name, message, fields);
    var rest := name + " " + body + "\n";
    assert line == time + [' '] + rest;
    IndexOfFirst(time, ' ', rest);
    assert |name| == 5 && line[..|time|] == time && line[|time| + 1..|time| + 6] == name;
    assert line[|time| + 7..|line| - 1] == body;
    ReadBodyPrints(message, fields);
  }

  // ---------- attributes and groups added to a handler ----------

  lemma {:induction false} FlattenConcat(groups: seq<string>, attrs: seq<Attr>, more: seq<Attr>)
    ensures FlattenAll(groups, attrs + more) == FlattenAll(groups, attrs) + FlattenAll(groups, more)
  {
    hide Flatten;
    if more == [] {
      assert attrs + more == attrs;
    } else {
      var n := |more| - 1;
      FlattenConcat(groups, attrs, more[..n]);
      assert (attrs + more)[..|attrs + more| - 1] == attrs + more[..n];
    }
  }

  /** Attributes added to a handler are printed before those of the record, as if the record had them. */
  lemma AttrsComeFirst(h: Handler, more: seq<Attr>, r: Record)
    ensures h.WithAttrs(more).Fields(r) == h.Fields(r.(attrs := more + r.attrs))
  {
    FlattenConcat(h.groups, h.attrs, more);
    FlattenConcat(h.groups, more, r.attrs);
  }

  /** A group added to a handler takes in everything the handler prints, the attributes that were added
      before it included. */
  lemma GroupTakesAll(h: Handler, name: string, r: Record)
    ensures h.WithGroup(name).Fields(r) == Flatten(h.groups, Attr(name, Group(h.attrs + r.attrs)))
  {
    FlattenConcat(Under(h.groups, name), h.attrs, r.attrs);
  }

  // ---------- a record is one line ----------

  lemma {:induction false} NoNewlineEscaped(s: string)
    ensures '\n' !in EscapeAll(s)
  {
    if s != "" {
      NoNewlineEscaped(s[1..]);
      assert '\n' !in Escape(s[0]);
    }
  }

  lemma NoNewlineQuoted(s: string)
    ensures '\n' !in Quote(s)
  {
    NoNewlineEscaped(s);
    if '\n' in s {
      assert Delimits('\n');
    }
  }

  lemma {:induction false} NoNewlinePrinted(fields: seq<Field>)
    requires PlainFields(fields)
    ensures '\n' !in Print(fields)
  {
    hide Quote;
    if fields != [] {
      NoNewlinePrinted(fields[1..]);
      assert PlainKey(fields[0].key);
      NoNewlineQuoted(fields[0].text);
    }
  }

  // ---------- keys ----------

  /** Keys and group names as the daemon uses them. */
  predicate PlainAttr(a: Attr)
    decreases a
  {
    PlainKey(a.key) && (a.value.Group? ==> forall i :: 0 <= i < |a.value.attrs| ==> PlainAttr(a.value.attrs[i]))
  }

  predicate PlainAttrs(attrs: seq<Attr>) {
    forall a :: a in attrs ==> PlainAttr(a)
  }

  predicate PlainGroups(groups: seq<string>) {
    forall g :: g in groups ==> PlainKey(g)
  }

  lemma {:induction false} PlainDotted(groups: seq<string>)
    requires PlainGroups(groups)
    ensures PlainKey(Dotted(groups))
  {
    if groups != [] {
      PlainDotted(groups[..|groups| - 1]);
      assert PlainKey(groups[|groups| - 1]);
    }
  }

  lemma {:induction false} PlainFlatten(groups: seq<string>, a: Attr)
    requires PlainGroups(groups) && PlainAttr(a)
    ensures PlainFields(Flatten(groups, a))
    decreases a
  {
    if a.value.Group? {
      PlainFlattenAll(Under(groups, a.key), a.value.attrs);
    } else {
      PlainDotted(groups);
    }
  }

  lemma {:induction false} PlainFlattenAll(groups: seq<string>, attrs: seq<Attr>)
    requires PlainGroups(groups) && PlainAttrs(attrs)
    ensures PlainFields(FlattenAll(groups, attrs))
    decreases attrs
  {
    if attrs != [] {
      PlainFlattenAll(groups, attrs[..|attrs| - 1]);
      PlainFlatten(groups, attrs[|attrs| - 1]);
    }
  }

  /** For message and keys free of delimiters a record is exactly one line, and the reader recovers its
      time, level, message and the flattened attributes from it, whatever the values hold. */
  lemma RecordRoundTrip(h: Handler, r: Record)
    requires ' ' !in r.time && '\n' !in r.time && '=' !in r.message && '\n' !in r.message
    requires PlainGroups(h.groups) && PlainAttrs(h.attrs) && PlainAttrs(r.attrs)
    ensures var line := Line(r.time, LevelName(r.level), r.message, h.Fields(r));
            && ReadLine(line) == Some(Reading(r.time, LevelName(r.level), r.message, h.Fields(r)))
            && |line| > 0 && IndexOf(line, '\n') == |line| - 1
  {
    hide ReadLine, Print;
    PlainFlattenAll(h.groups, h.attrs);
    PlainFlattenAll(h.groups, r.attrs);
    var fields := h.Fields(r);
    ReadLinePrints(r.time, r.level, r.message, fields);
    NoNewlinePrinted(fields);
    var text := r.time + " " + LevelName(r.level) + " " + (r.message + Print(fields));
    assert '\n' !in text;
    IndexOfFirst(text, '\n', "");
    assert Line(r.time, LevelName(r.level), r.message, fields) == text + ['\n'] + "";
  }
}
