/** Writing a configuration to a file and reading it back. */
module ConfigFile {
  import opened Wrappers
  import opened Text
  import opened Options
  import Propagation

  /** What is written of an option. */
  datatype Entry = Entry(key: string, value: Value, userSet: bool, source: string)

  /** The menu in order: options, which are written when they can be enabled, and menus. */
  datatype Item = Config(entry: Entry, canEnable: bool) | Menu(title: string)

  /** What reading asks for, one option after the other. */
  datatype Call = Call(key: string, text: string, userSet: bool, source: string)

  /*** Writing ***/

  function Quote(s: string): string {
    if s == "" then ""
    else (if s[0] == '"' || s[0] == '\\' then ['\\', s[0]] else [s[0]]) + Quote(s[1..])
  }

  function Digits(n: nat): string {
    (if n < 10 then "" else Digits(n / 10)) + ["0123456789"[n % 10]]
  }

  function Decimal(n: int): string {
    if n < 0 then "-" + Digits(-n) else Digits(n)
  }

  function SourceText(source: string): string {
    if source == "" then "" else " (" + source + ")"
  }

  function Written(v: Value): string {
    match v
    case B(b) => if b then "y" else "n"
    case I(n) => Decimal(n)
    case S(s) => "\"" + Quote(s) + "\""
  }

  function EntryLine(e: Entry): string {
    if e.value == B(false) then
      "# CONFIG_" + e.key + " is not set" + if e.userSet then " [by user]" + SourceText(e.source) else ""
    else
      "CONFIG_" + e.key + "=" + Written(e.value) + if e.userSet then " # set by user" + SourceText(e.source) else ""
  }

  function ItemText(i: Item): string {
    match i
    case Config(e, true) => EntryLine(e) + "\n"
    case Config(_, false) => ""
    case Menu(t) => "\n#\n# " + t + "\n#\n"
  }

  function FileText(items: seq<Item>): string {
    if items == [] then "" else ItemText(items[0]) + FileText(items[1..])
  }

  method WriteEntry(c: Entry) returns (f: string)
    ensures f == EntryLine(c)
  {
    var mark := " # set by user";
    match c.value {
      case B(on) =>
        if on {
          f := "CONFIG_" + c.key + "=y";
          assert f == "CONFIG_" + c.key + "=" + "y";
        } else {
          f := "# CONFIG_" + c.key + " is not set";
          mark := " [by user]";
        }
      case S(s) =>
        f := "CONFIG_" + c.key + "=\"" + Quote(s) + "\"";
        assert f == "CONFIG_" + c.key + "=" + ("\"" + Quote(s) + "\"");
      case I(n) => f := "CONFIG_" + c.key + "=" + Decimal(n);
    }
    if c.userSet {
      if c.source != "" {
        mark := mark + SourceText(c.source);
      } else {
        assert mark + "" == mark;
      }
      f := f + mark;
    } else {
      assert f + "" == f;
    }
  }

  method WriteConfig(items: seq<Item>) returns (f: string)
    ensures f == FileText(items)
  {
    hide EntryLine, FileText;
    f := "";
    var i := 0;
    assert items[0..] == items;
    while i < |items|
      invariant 0 <= i <= |items|
      invariant f + FileText(items[i..]) == FileText(items)
    {
      FileTextFrom(items, i, f);
      match items[i] {
        case Config(c, canEnable) =>
          if canEnable {
            var line := WriteEntry(c);
            f := f + (line + "\n");
          } else {
            assert f + "" == f;
          }
        case Menu(t) =>
          f := f + ("\n#\n# " + t + "\n#\n");
      }
      i := i + 1;
    }
    FileTextEnd(items[i..], f);
  }

  lemma FileTextFrom(items: seq<Item>, i: nat, f: string)
    requires i < |items|
    ensures f + FileText(items[i..]) == f + ItemText(items[i]) + FileText(items[i + 1..])
  {
    hide ItemText;
    assert items[i..][1..] == items[i + 1..];
  }

  lemma FileTextEnd(items: seq<Item>, f: string)
    requires items == []
    ensures f + FileText(items) == f
  {
  }

  /*** Reading ***/

  function Unescape(s: string): string {
    if |s| < 2 then s
    else if s[0] == '\\' then [s[1]] + Unescape(s[2..])
    else [s[0]] + Unescape(s[1..])
  }

  /** The source in parentheses, up to the last closing one. */
  function SourceOf(t: string): string {
    if StartsWith(t, " (") && LastIndexOf(t, ')') > 2 then t[2..LastIndexOf(t, ')')] else ""
  }

  const NOT_SET := " is not set"

  /** The last n at which s says that what comes before is not set. */
  function NameEnd(s: string, n: nat): (r: nat)
    requires n <= |s|
    ensures r <= n && (r > 0 ==> '=' !in s[..r] && At(s, r, NOT_SET))
  {
    if n == 0 then 0
    else if '=' !in s[..n] && At(s, n, NOT_SET) then n
    else NameEnd(s, n - 1)
  }

  function NotSet(line: string): Option<Call> {
    if !StartsWith(line, "# CONFIG_") then None
    else
      var rest := line[9..];
      var n := NameEnd(rest, |rest|);
      if n == 0 then None
      else
        var tail := rest[n + 11..];
        if StartsWith(tail, " [by user]") then Some(Call(rest[..n], "n", true, SourceOf(tail[10..])))
        else Some(Call(rest[..n], "n", false, ""))
  }

  /** The key and the text of an assignment. */
  function Assigned(line: string): Option<(string, string)> {
    if !StartsWith(line, "CONFIG_") then None
    else
      var rest := line[7..];
      var n := IndexOf(rest, '=');
      if n == 0 || n == |rest| then None
      else
        var v := rest[n + 1..];
        if v != "" && v[0] == '"' && LastIndexOf(v, '"') > 0 then Some((rest[..n], Unescape(v[1..LastIndexOf(v, '"')])))
        else Some((rest[..n], v))
  }

  datatype Parsed = Nothing | Asks(call: Call) | Malformed

  function ParseLine(raw: string): Parsed {
    var line := Strip(raw);
    if line == "" then Nothing
    else if line[0] == '#' then
      match NotSet(line)
      case Some(c) => Asks(c)
      case None => Nothing
    else
      var n := IndexOf(line, '#');
      var comment := if n == |line| then "" else line[n + 1..];
      var user := StartsWith(comment, " set by user");
      match Assigned(TrimEnd(line[..n]))
      case None => Malformed
      case Some(a) => Asks(Call(a.0, a.1, user, if user then SourceOf(comment[12..]) else ""))
  }

  /** None stands for a line that cannot be parsed. */
  function ParseAll(lines: seq<string>): Option<seq<Call>> {
    if lines == [] then Some([])
    else
      match (ParseLine(lines[0]), ParseAll(lines[1..]))
      case (Malformed, _) => None
      case (Nothing, rest) => rest
      case (Asks(c), rest) => After([c], rest)
  }

  function ParseText(f: string): Option<seq<Call>> {
    ParseAll(Lines(f))
  }

  /** Reads the lines up to the first that cannot be parsed, and asks for what stands in
      the first n. */
  method ReadConfigFile(f: string) returns (calls: seq<Call>, ok: bool, ghost n: nat)
    ensures n <= |Lines(f)| && ParseAll(Lines(f)[..n]) == Some(calls)
    ensures if ok then n == |Lines(f)| else n < |Lines(f)| && ParseLine(Lines(f)[n]) == Malformed
    ensures ok <==> ParseText(f).Some?
    ensures ok ==> ParseText(f) == Some(calls)
  {
    hide ParseLine;
    var lines := Lines(f);
    calls := [];
    var i := 0;
    assert lines[..0] == [];
    while i < |lines|
      invariant 0 <= i <= |lines|
      invariant ParseAll(lines[..i]) == Some(calls)
    {
      assert lines[..i + 1] == lines[..i] + [lines[i]];
      ParseAllMore(lines[..i], lines[i], []);
      var p := ParseLine(lines[i]);
      match p {
        case Malformed =>
          ParseAllMore(lines[..i], lines[i], lines[i + 1..]);
          assert lines == lines[..i] + [lines[i]] + lines[i + 1..];
          return calls, false, i;
        case Nothing =>
        case Asks(c) => calls := calls + [c];
      }
      i := i + 1;
    }
    assert lines[..i] == lines;
    return calls, true, i;
  }

  /** The lines read so far, one more, and the rest. */
  lemma {:induction false} ParseAllMore(lines: seq<string>, line: string, rest: seq<string>)
    requires ParseAll(lines).Some?
    ensures var cs := ParseAll(lines).value;
            match ParseLine(line)
            case Malformed => ParseAll(lines + [line] + rest) == None
            case Nothing => ParseAll(lines + [line]) == Some(cs)
            case Asks(c) => ParseAll(lines + [line]) == Some(cs + [c])
  {
    hide ParseLine;
    if lines == [] {
      assert [line] + rest == [] + [line] + rest && [] + [line] == [line] && ([line] + rest)[1..] == rest;
      var p := ParseLine(line);
      if p.Asks? {
        assert [p.call] + [] == [] + [p.call];
      }
    } else {
      ParseAllMore(lines[1..], line, rest);
      assert (lines + [line])[1..] == lines[1..] + [line];
      assert (lines + [line] + rest)[1..] == lines[1..] + [line] + rest;
      var p, q := ParseLine(lines[0]), ParseLine(line);
      if p.Asks? && q.Asks? {
        var cs := ParseAll(lines[1..]).value;
        assert [p.call] + (cs + [q.call]) == [p.call] + cs + [q.call];
      }
    }
  }

  function After(calls: seq<Call>, rest: Option<seq<Call>>): Option<seq<Call>> {
    match rest
    case None => None
    case Some(cs) => Some(calls + cs)
  }

  /*** What comes back ***/

  function TextOf(v: Value): string {
    match v
    case B(b) => if b then "y" else "n"
    case I(n) => Decimal(n)
    case S(s) => s
  }

  /** What should be read of an option. */
  function CallOf(e: Entry): Call {
    Call(e.key, TextOf(e.value), e.userSet, if e.userSet then e.source else "")
  }

  function CallsOf(items: seq<Item>): seq<Call> {
    if items == [] then []
    else
      (match items[0]
       case Config(e, true) => [CallOf(e)]
       case _ => [])
      + CallsOf(items[1..])
  }

  predicate IsName(s: string) {
    s != "" && forall i :: 0 <= i < |s| ==>
        'a' <= s[i] <= 'z' || 'A' <= s[i] <= 'Z' || '0' <= s[i] <= '9' || s[i] == '_'
  }

  /** The source itself says that something is not set, with no equals sign before. */
  predicate Misleading(source: string) {
    exists i :: 0 <= i < |source| && '=' !in source[..i] && At(source, i, NOT_SET)
  }

  /** What is written of the option takes more than one line. */
  predicate Broken(e: Entry) {
    (e.value.S? && !OneLine(e.value.s)) || (e.userSet && !OneLine(e.source))
  }

  /** An option that does not come back: it takes more than one line; or it is a text with
      a hash, which reads as the start of a comment; or it is off by the user's wish, and
      its source misleads the reader. */
  predicate MisreadEntry(e: Entry) {
    || Broken(e)
    || (e.value.S? && '#' in e.value.s)
    || (e.value == B(false) && e.userSet && Misleading(e.source))
  }

  /** A title of which some line reads as an option, or does not read at all. */
  predicate MisreadTitle(t: string) {
    exists line :: line in Lines("# " + t + "\n") && ParseLine(line) != Nothing
  }

  predicate Misread(i: Item) {
    match i
    case Config(e, canEnable) => canEnable && MisreadEntry(e)
    case Menu(t) => MisreadTitle(t)
  }

  /*** Quotes and sources ***/

  lemma {:induction false} UnescapeQuote(s: string)
    ensures Unescape(Quote(s)) == s
    ensures forall c :: c in Quote(s) ==> c in s || c == '\\'
  {
    if s != "" {
      UnescapeQuote(s[1..]);
      assert s == [s[0]] + s[1..];
      if s[0] == '"' || s[0] == '\\' {
        assert Quote(s)[2..] == Quote(s[1..]);
      } else {
        assert Quote(s)[1..] == Quote(s[1..]);
        if s[1..] == "" {
          assert Quote(s) == s;
        }
      }
    }
  }

  lemma SourceComesBack(source: string)
    ensures SourceOf(SourceText(source)) == source
  {
    if source != "" {
      var t := SourceText(source);
      assert t[0] == ' ' && t[1] == '(' && t[..2] == " (";
      LastIndexIs(t, ')', |t| - 1);
      assert t[2..|t| - 1] == source;
    }
  }

  /*** Assignments ***/

  predicate IsDigit(c: char) {
    '0' <= c <= '9'
  }

  lemma {:induction false} DigitsAre(n: nat)
    ensures Digits(n) != "" && forall i :: 0 <= i < |Digits(n)| ==> IsDigit(Digits(n)[i])
  {
    if n >= 10 {
      DigitsAre(n / 10);
    }
  }

  /** What is written of a value has no hash, no line break, and no space at its ends. */
  predicate Solid(w: string) {
    && w != "" && !IsSpace(w[0]) && !IsSpace(w[|w| - 1]) && '#' !in w && OneLine(w)
  }

  lemma DigitsAreSolid(w: string)
    requires w != "" && forall i :: 0 <= i < |w| ==> IsDigit(w[i]) || w[i] == '-'
    ensures Solid(w) && w[0] != '"'
  {
  }

  lemma QuotedIsSolid(s: string)
    requires OneLine(s)
    ensures '#' !in s ==> Solid("\"" + Quote(s) + "\"")
    ensures OneLine("\"" + Quote(s) + "\"")
  {
    UnescapeQuote(s);
    var q := Quote(s);
    forall i | 0 <= i < |q|
      ensures !IsNewline(q[i])
    {
      assert q[i] in q;
    }
    OneLineAdd("\"", q);
    OneLineAdd("\"" + q, "\"");
  }

  lemma WrittenIsSolid(v: Value)
    requires v.S? ==> OneLine(v.s)
    ensures OneLine(Written(v))
    ensures !(v.S? && '#' in v.s) ==> Solid(Written(v))
    ensures !v.S? ==> Written(v) != "" && Written(v)[0] != '"' && Written(v) == TextOf(v)
  {
    match v
    case B(b) =>
    case I(n) =>
      DigitsAre(if n < 0 then -n else n);
      DigitsAreSolid(Decimal(n));
    case S(s) => QuotedIsSolid(s);
  }

  lemma NameIs(k: string)
    requires IsName(k)
    ensures '=' !in k && '#' !in k && ' ' !in k && OneLine(k)
  {
  }

  lemma AssignedIs(k: string, v: Value)
    requires IsName(k) && (v.S? ==> OneLine(v.s) && '#' !in v.s)
    ensures Assigned("CONFIG_" + k + "=" + Written(v)) == Some((k, TextOf(v)))
  {
    hide *;
    NameIs(k);
    NonEmpty(k);
    WrittenIsSolid(v);
    WrittenIsText(v);
    SplitsAtEquals(k, Written(v));
  }

  /** The text that quotes and escapes leave of a value. */
  function Unquoted(w: string): string {
    if w != "" && w[0] == '"' && LastIndexOf(w, '"') > 0 then Unescape(w[1..LastIndexOf(w, '"')]) else w
  }

  lemma SplitsAtEquals(k: string, w: string)
    requires k != "" && '=' !in k
    ensures Assigned("CONFIG_" + k + "=" + w) == Some((k, Unquoted(w)))
  {
    hide Unescape, IndexOf, LastIndexOf;
    var line, rest := "CONFIG_" + k + "=" + w, k + "=" + w;
    assert line == "CONFIG_" + rest && line[..7] == "CONFIG_" && line[7..] == rest;
    assert rest[..|k|] == k && rest[|k|] == '=' && rest[|k| + 1..] == w;
    IndexIs(rest, '=', |k|);
  }

  lemma WrittenIsText(v: Value)
    requires !v.S? ==> Written(v) != "" && Written(v)[0] != '"' && Written(v) == TextOf(v)
    ensures Unquoted(Written(v)) == TextOf(v)
  {
    if v.S? {
      var w := Written(v);
      hide Quote, Unescape;
      UnescapeQuote(v.s);
      LastIndexIs(w, '"', |w| - 1);
      assert w[1..|w| - 1] == Quote(v.s);
    }
  }

  lemma NonEmpty(k: string)
    requires IsName(k)
    ensures k != ""
  {
  }

  lemma SolidIs(w: string)
    requires Solid(w)
    ensures w != "" && !IsSpace(w[0]) && !IsSpace(w[|w| - 1]) && '#' !in w && OneLine(w)
  {
  }

  /** An assignment without a mark, and with one. */
  lemma ParsePlain(body: string, a: (string, string))
    requires Solid(body) && Assigned(body) == Some(a)
    ensures ParseLine(body) == Asks(Call(a.0, a.1, false, ""))
  {
    hide Assigned, IsSpace, SourceOf;
    SolidIs(body);
    StripIs(body);
    assert body[..|body|] == body;
    assert body[0] in body;
    IndexIs(body, '#', |body|);
  }

  lemma ParseCut(line: string, body: string, comment: string)
    requires Solid(body) && line == body + " #" + comment && !IsSpace(line[|line| - 1])
    ensures var user := StartsWith(comment, " set by user");
            ParseLine(line) ==
            match Assigned(body)
            case None => Malformed
            case Some(a) => Asks(Call(a.0, a.1, user, if user then SourceOf(comment[12..]) else ""))
  {
    hide Assigned, IsSpace, SourceOf, Solid, OneLine, Strip, TrimEnd, IndexOf, StartsWith;
    SolidIs(body);
    assert line[0] == body[0] && body[0] in body;
    StripIs(line);
    var n := |body| + 1;
    assert line[..n] == body + " " && line[n] == '#' && line[n + 1..] == comment;
    IndexIs(line, '#', n);
    TrimEndIs(body);
  }

  lemma ParseMarked(body: string, a: (string, string), source: string)
    requires Solid(body) && Assigned(body) == Some(a)
    ensures ParseLine(body + " # set by user" + SourceText(source)) == Asks(Call(a.0, a.1, true, source))
  {
    hide Assigned, IsSpace, SourceOf, SourceText, Solid, ParseLine;
    var line := body + " # set by user" + SourceText(source);
    var mark := " # set by user" + SourceText(source);
    var comment := " set by user" + SourceText(source);
    assert line == body + mark && mark == " #" + comment;
    assert line == body + " #" + comment;
    MarkEnds(source);
    assert line[|line| - 1] == mark[|mark| - 1];
    ParseCut(line, body, comment);
    assert comment[..12] == " set by user" && comment[12..] == SourceText(source);
    SourceComesBack(source);
  }

  lemma MarkEnds(source: string)
    ensures var mark := " # set by user" + SourceText(source); !IsSpace(mark[|mark| - 1])
    ensures var mark := " is not set [by user]" + SourceText(source); !IsSpace(mark[|mark| - 1])
  {
  }

  lemma BodyIsSolid(k: string, w: string)
    requires IsName(k) && Solid(w)
    ensures Solid("CONFIG_" + k + "=" + w)
  {
    hide IsSpace;
    NameIs(k);
    OneLineAdd("CONFIG_", k);
    OneLineAdd("CONFIG_" + k, "=");
    OneLineAdd("CONFIG_" + k + "=", w);
    CIsNoSpace();
  }

  lemma CIsNoSpace()
    ensures !IsSpace('C') && !IsSpace('#')
  {
  }

  lemma {:induction false} UnescapeAddsNothing(s: string, c: char)
    requires c in Unescape(s)
    ensures c in s
    decreases |s|
  {
    if |s| >= 2 {
      if s[0] == '\\' {
        if c != s[1] {
          UnescapeAddsNothing(s[2..], c);
        }
      } else if c != s[0] {
        UnescapeAddsNothing(s[1..], c);
      }
    }
  }

  lemma {:induction false} TrimEndAddsNothing(s: string, c: char)
    requires c in TrimEnd(s)
    ensures c in s
    decreases |s|
  {
    if s != "" && IsSpace(s[|s| - 1]) {
      TrimEndAddsNothing(s[..|s| - 1], c);
    }
  }

  lemma AssignedAddsNothing(line: string, c: char)
    requires Assigned(line).Some? && c in Assigned(line).value.1
    ensures c in line
  {
    hide Unescape;
    var rest := line[7..];
    var v := rest[IndexOf(rest, '=') + 1..];
    if v != "" && v[0] == '"' && LastIndexOf(v, '"') > 0 {
      UnescapeAddsNothing(v[1..LastIndexOf(v, '"')], c);
    }
  }

  /** No text read from an assignment has a hash. */
  lemma TextHasNoHash(line: string)
    requires Strip(line) != "" && Strip(line)[0] != '#'
    ensures ParseLine(line) != Nothing
    ensures ParseLine(line).Asks? ==> '#' !in ParseLine(line).call.text
  {
    hide Assigned, Strip, TrimEnd, SourceOf, StartsWith;
    var s := Strip(line);
    var body := TrimEnd(s[..IndexOf(s, '#')]);
    if '#' in body {
      TrimEndAddsNothing(s[..IndexOf(s, '#')], '#');
    }
    if Assigned(body).Some? && '#' in Assigned(body).value.1 {
      AssignedAddsNothing(body, '#');
    }
  }

  lemma HashIsLost(e: Entry)
    requires e.value.S? && '#' in e.value.s
    ensures ParseLine(EntryLine(e)) != Nothing && ParseLine(EntryLine(e)) != Asks(CallOf(e))
  {
    hide ParseLine, SourceText, Strip, Quote;
    assert EntryLine(e)[0] == 'C';
    CIsNoSpace();
    KeepsFirst(EntryLine(e));
    hide EntryLine;
    TextHasNoHash(EntryLine(e));
  }

  /** An option that is not off comes back exactly when its value is no text with a hash. */
  lemma AssignmentComesBack(e: Entry)
    requires IsName(e.key) && e.value != B(false) && (e.value.S? ==> OneLine(e.value.s))
    ensures ParseLine(EntryLine(e)) != Nothing
    ensures ParseLine(EntryLine(e)) == Asks(CallOf(e)) <==> !(e.value.S? && '#' in e.value.s)
  {
    hide ParseLine, EntryLine;
    if e.value.S? && '#' in e.value.s {
      HashIsLost(e);
    } else {
      HashlessComesBack(e);
    }
  }

  lemma HashlessComesBack(e: Entry)
    requires IsName(e.key) && e.value != B(false) && (e.value.S? ==> OneLine(e.value.s) && '#' !in e.value.s)
    ensures ParseLine(EntryLine(e)) == Asks(CallOf(e))
  {
    hide ParseLine, Assigned, SourceText, Solid, IsName;
    var body := "CONFIG_" + e.key + "=" + Written(e.value);
    WrittenIsSolid(e.value);
    BodyIsSolid(e.key, Written(e.value));
    AssignedIs(e.key, e.value);
    if e.userSet {
      ParseMarked(body, (e.key, TextOf(e.value)), e.source);
      assert EntryLine(e) == body + " # set by user" + SourceText(e.source);
    } else {
      ParsePlain(body, (e.key, TextOf(e.value)));
      assert body + "" == body;
    }
  }

  /*** Options that are off ***/

  lemma {:induction false} NameEndIs(s: string, m: nat, n: nat)
    requires 0 < n <= m <= |s| && '=' !in s[..n] && At(s, n, NOT_SET)
    requires forall j :: n < j <= m ==> '=' in s[..j] || !At(s, j, NOT_SET)
    ensures NameEnd(s, m) == n
  {
    hide At;
    if m > n {
      NameEndIs(s, m - 1, n);
    }
  }

  lemma {:induction false} NameEndAtLeast(s: string, m: nat, j: nat)
    requires 0 < j <= m <= |s| && '=' !in s[..j] && At(s, j, NOT_SET)
    ensures NameEnd(s, m) >= j
  {
    hide At;
    if m > j {
      NameEndAtLeast(s, m - 1, j);
    }
  }

  /** What follows the name of an option that is off. */
  function OffTail(user: bool, source: string): string {
    NOT_SET + if user then " [by user]" + SourceText(source) else ""
  }

  lemma AtLooks(s: string, j: nat)
    ensures At(s, j, NOT_SET) ==> j + 11 <= |s| && s[j] == ' ' && s[j + 1] == 'i' && s[j + 10] == 't'
  {
    if At(s, j, NOT_SET) {
      assert s[j] == s[j..j + 11][0];
      assert s[j + 1] == s[j..j + 11][1];
      assert s[j + 10] == s[j..j + 11][10];
    }
  }

  const HEAD := " is not set [by user] ("

  /** Nothing in head looks like a second start of it. */
  predicate NoRestart(head: string) {
    && (forall j :: 0 < j < |head| - 1 ==> head[j] != ' ' || head[j + 1] != 'i')
    && (head != "" ==> head[|head| - 1] != ' ')
  }

  lemma HeadHasNoRestart()
    ensures NoRestart(HEAD) && |HEAD| == 23
  {
    forall j | 0 < j < 22
      ensures HEAD[j] != ' ' || HEAD[j + 1] != 'i'
    {
      if j < 8 {
        assert HEAD[..9] == " is not s";
      } else if j < 15 {
        assert HEAD[8..17] == "set [by u";
      } else {
        assert HEAD[15..] == " user] (";
      }
    }
  }

  lemma NoneWithin(t: string, head: string, j: nat)
    requires head <= t && NoRestart(head) && 0 < j < |head|
    ensures !At(t, j, NOT_SET)
  {
    AtLooks(t, j);
    hide At;
    assert t[j] == head[j];
    if j < |head| - 1 {
      assert t[j + 1] == head[j + 1];
    }
  }

  lemma AfterHead(head: string, rest: string, j: nat)
    requires NoRestart(head) && j > 0 && At(head + rest, j, NOT_SET)
    ensures j >= |head| && At(rest, j - |head|, NOT_SET)
  {
    hide At, NoRestart;
    if j >= |head| {
      AtShift(head, rest, j - |head|, NOT_SET);
    } else {
      NoneWithin(head + rest, head, j);
    }
  }

  lemma ShortHasNone(t: string, j: nat)
    requires t <= HEAD && j > 0
    ensures !At(t, j, NOT_SET)
  {
    HeadHasNoRestart();
    AtLooks(t, j);
    hide At;
    if j + 1 < |t| {
      assert HEAD[j] == t[j] && HEAD[j + 1] == t[j + 1];
    }
  }

  lemma AtBefore(source: string, i: nat)
    requires At(source + ")", i, NOT_SET)
    ensures i < |source| && At(source, i, NOT_SET)
  {
    var s := source + ")";
    AtLooks(s, i);
    assert i + 11 <= |source|;
    assert s[i..i + 11] == source[i..i + 11];
  }

  /** After the name, only the source can say again that something is not set. */
  lemma OnlyInSource(user: bool, source: string, j: nat)
    requires j > 0 && At(OffTail(user, source), j, NOT_SET)
    ensures user && j >= 23 && j - 23 < |source| && At(source, j - 23, NOT_SET)
  {
    hide At;
    HeadHasNoRestart();
    if user && source != "" {
      FullTail(source);
      AfterHead(HEAD, source + ")", j);
      AtBefore(source, j - 23);
    } else {
      ShortTail(user);
      ShortHasNone(OffTail(user, source), j);
    }
  }

  lemma FullTail(source: string)
    requires source != ""
    ensures OffTail(true, source) == HEAD + (source + ")")
  {
    Five(NOT_SET, " [by user]", " (", source, ")");
    assert HEAD == NOT_SET + " [by user]" + " (";
  }

  lemma Five(a: string, b: string, c: string, d: string, e: string)
    ensures a + (b + (c + d + e)) == a + b + c + (d + e)
  {
  }

  lemma ShortTail(user: bool)
    ensures OffTail(user, "") <= HEAD && OffTail(false, "") <= HEAD
    ensures forall source :: OffTail(false, source) == OffTail(false, "")
  {
    assert NOT_SET + "" == NOT_SET;
    assert OffTail(true, "") == NOT_SET + " [by user]";
  }

  lemma HeadHasNoEquals()
    ensures '=' !in HEAD
  {
  }

  /** Where the source says something in the line, and what comes before. */
  lemma SourceInLine(k: string, source: string, i: nat)
    requires '=' !in k && source != "" && i <= |source|
    ensures var rest := k + OffTail(true, source);
            && |k| + 23 + i <= |rest|
            && ('=' in rest[..|k| + 23 + i] <==> '=' in source[..i])
            && (At(source, i, NOT_SET) ==> At(rest, |k| + 23 + i, NOT_SET))
  {
    hide At;
    FullTail(source);
    HeadHasNoRestart();
    HeadHasNoEquals();
    var rest := k + OffTail(true, source);
    assert rest == (k + HEAD) + (source + ")");
    assert rest[..|k| + 23 + i] == k + HEAD + source[..i];
    if At(source, i, NOT_SET) {
      AtFront(source, ")", i, NOT_SET);
      AtShift(k + HEAD, source + ")", i, NOT_SET);
    }
  }

  lemma AtFront(s: string, t: string, i: nat, u: string)
    requires At(s, i, u)
    ensures At(s + t, i, u)
  {
    assert (s + t)[i..i + |u|] == s[i..i + |u|];
  }

  predicate NameHere(s: string, n: nat) {
    n <= |s| && '=' !in s[..n] && At(s, n, NOT_SET)
  }

  lemma NameFirst(k: string, user: bool, source: string)
    requires '=' !in k
    ensures NameHere(k + OffTail(user, source), |k|)
  {
    var t := OffTail(user, source);
    assert t[0..11] == NOT_SET;
    AtShift(k, t, 0, NOT_SET);
    assert (k + t)[..|k|] == k;
  }

  /** The name ends where it should unless the source misleads. */
  lemma NameOnlyFirst(k: string, user: bool, source: string, j: nat)
    requires '=' !in k && j > |k| && !(user && Misleading(source))
    ensures !NameHere(k + OffTail(user, source), j)
  {
    hide At, OffTail;
    if NameHere(k + OffTail(user, source), j) {
      AtShift(k, OffTail(user, source), j - |k|, NOT_SET);
      OnlyInSource(user, source, j - |k|);
      SourceInLine(k, source, j - |k| - 23);
    }
  }

  lemma NameEndsFirst(k: string, user: bool, source: string)
    requires k != "" && '=' !in k && !(user && Misleading(source))
    ensures var rest := k + OffTail(user, source); NameEnd(rest, |rest|) == |k|
  {
    hide At, OffTail, NameEnd, Misleading;
    var rest := k + OffTail(user, source);
    NameFirst(k, user, source);
    forall j | |k| < j <= |rest|
      ensures '=' in rest[..j] || !At(rest, j, NOT_SET)
    {
      NameOnlyFirst(k, user, source, j);
    }
    NameEndIs(rest, |rest|, |k|);
  }

  lemma NameEndsLater(k: string, source: string)
    requires k != "" && '=' !in k && Misleading(source)
    ensures var rest := k + OffTail(true, source); NameEnd(rest, |rest|) > |k|
  {
    hide At, OffTail, NameEnd;
    var rest := k + OffTail(true, source);
    var i :| 0 <= i < |source| && '=' !in source[..i] && At(source, i, NOT_SET);
    SourceInLine(k, source, i);
    NameEndAtLeast(rest, |rest|, |k| + 23 + i);
  }

  /** The reader's view of an option that is off. */
  lemma OffLine(e: Entry)
    requires IsName(e.key) && e.value == B(false)
    ensures var rest := e.key + OffTail(e.userSet, e.source);
            && EntryLine(e) == "# CONFIG_" + rest
            && ParseLine(EntryLine(e)) == match NotSet("# CONFIG_" + rest) case Some(c) => Asks(c) case None => Nothing
  {
    hide NotSet, IsSpace, SourceText, IsName;
    var rest := e.key + OffTail(e.userSet, e.source);
    var line := "# CONFIG_" + rest;
    assert EntryLine(e) == line;
    OffEnds(e.userSet, e.source);
    CIsNoSpace();
    assert line[0] == '#' && line[|line| - 1] == OffTail(e.userSet, e.source)[|OffTail(e.userSet, e.source)| - 1];
    StripIs(line);
  }

  lemma OffEnds(user: bool, source: string)
    ensures var t := OffTail(user, source); t != "" && !IsSpace(t[|t| - 1])
  {
  }

  lemma NotSetIs(k: string, user: bool, source: string)
    requires k != ""
    ensures var rest := k + OffTail(user, source);
            var c := NotSet("# CONFIG_" + rest);
            if NameEnd(rest, |rest|) == |k| then c == Some(Call(k, "n", user, if user then source else ""))
            else NameEnd(rest, |rest|) > 0 ==> c.Some? && c.value.key != k
  {
    hide NameEnd, SourceText, SourceOf;
    var rest := k + OffTail(user, source);
    var line := "# CONFIG_" + rest;
    assert line[..9] == "# CONFIG_" && line[9..] == rest;
    var n := NameEnd(rest, |rest|);
    if n == |k| {
      assert rest[..n] == k;
      var tail := rest[n + 11..];
      if user {
        assert tail == " [by user]" + SourceText(source);
        assert tail[..10] == " [by user]" && tail[10..] == SourceText(source);
        SourceComesBack(source);
      } else {
        assert tail == "";
      }
    }
  }

  /** An option that is off comes back exactly when its source does not mislead. */
  lemma OffComesBack(e: Entry)
    requires IsName(e.key) && e.value == B(false)
    ensures ParseLine(EntryLine(e)).Asks?
    ensures ParseLine(EntryLine(e)) == Asks(CallOf(e)) <==> !(e.userSet && Misleading(e.source))
  {
    hide NotSet, NameEnd, OffTail, ParseLine, EntryLine, IsName, Misleading;
    NameIs(e.key);
    NonEmpty(e.key);
    OffLine(e);
    NotSetIs(e.key, e.userSet, e.source);
    if e.userSet && Misleading(e.source) {
      NameEndsLater(e.key, e.source);
    } else {
      NameEndsFirst(e.key, e.userSet, e.source);
    }
  }

  /*** Options that take more than one line ***/

  ghost predicate Within(a: string, b: string) {
    forall c :: c in a ==> c in b
  }

  lemma WithinOneLine(a: string, b: string)
    requires Within(a, b) && OneLine(b)
    ensures OneLine(a)
  {
    forall i | 0 <= i < |a|
      ensures !IsNewline(a[i])
    {
      assert a[i] in a;
    }
  }

  lemma {:induction false} TrimStartAddsNothing(s: string, c: char)
    requires c in TrimStart(s)
    ensures c in s
  {
    if s != "" && IsSpace(s[0]) {
      TrimStartAddsNothing(s[1..], c);
    }
  }

  lemma SourceAddsNothing(t: string)
    ensures Within(SourceOf(t), t)
  {
  }

  lemma OffAddsNothing(line: string)
    requires NotSet(line).Some?
    ensures Within(NotSet(line).value.source, line) && NotSet(line).value.text == "n"
  {
    hide SourceOf, NameEnd;
    var rest := line[9..];
    var tail := rest[NameEnd(rest, |rest|) + 11..];
    if StartsWith(tail, " [by user]") {
      SourceAddsNothing(tail[10..]);
    }
  }

  lemma StripWithin(line: string)
    ensures Within(Strip(line), line)
  {
    forall c | c in Strip(line)
      ensures c in line
    {
      TrimStartAddsNothing(TrimEnd(line), c);
      TrimEndAddsNothing(line, c);
    }
  }

  /** What is read of a line has only characters of the line. */
  lemma ReadWithin(line: string)
    requires ParseLine(line).Asks?
    ensures Within(ParseLine(line).call.source, line)
    ensures ParseLine(line).call.text == "n" || Within(ParseLine(line).call.text, line)
  {
    hide Strip, TrimEnd, NotSet, Assigned, SourceOf, StartsWith;
    var s := Strip(line);
    StripWithin(line);
    if s[0] == '#' {
      OffAddsNothing(s);
    } else {
      var n := IndexOf(s, '#');
      var body := TrimEnd(s[..n]);
      forall c | c in Assigned(body).value.1
        ensures c in line
      {
        AssignedAddsNothing(body, c);
        TrimEndAddsNothing(s[..n], c);
      }
      var comment := if n == |s| then "" else s[n + 1..];
      if StartsWith(comment, " set by user") {
        MarkLength(comment);
        SourceAddsNothing(comment[12..]);
      }
    }
  }

  lemma MarkLength(comment: string)
    requires StartsWith(comment, " set by user")
    ensures |comment| >= 12
  {
  }

  lemma {:induction false} QuoteKeeps(s: string, c: char)
    requires c in s
    ensures c in Quote(s)
  {
    if s[0] != c {
      assert s == [s[0]] + s[1..];
      QuoteKeeps(s[1..], c);
    }
  }

  lemma HasNewline(s: string) returns (c: char)
    requires !OneLine(s)
    ensures c in s && IsNewline(c)
  {
    var i :| 0 <= i < |s| && IsNewline(s[i]);
    c := s[i];
  }

  /** From its first line a broken option is not what was written. */
  lemma BrokenIsLost(e: Entry, line: string)
    requires Broken(e) && OneLine(line) && ParseLine(line).Asks?
    ensures ParseLine(line).call != CallOf(e)
  {
    hide ParseLine, Within;
    ReadWithin(line);
    var c := ParseLine(line).call;
    WithinOneLine(c.source, line);
    if c.text != "n" {
      WithinOneLine(c.text, line);
    }
    NIsOneLine();
  }

  lemma NIsOneLine()
    ensures OneLine("n")
  {
  }

  lemma {:induction false} TrimEndTail(head: string, tail: string)
    requires head != "" && !IsSpace(head[|head| - 1])
    ensures TrimEnd(head + tail) == head + TrimEnd(tail)
  {
    if tail == "" {
      assert head + tail == head;
    } else if IsSpace(tail[|tail| - 1]) {
      assert (head + tail)[..|head + tail| - 1] == head + tail[..|tail| - 1];
      TrimEndTail(head, tail[..|tail| - 1]);
    }
  }

  /** The line of an option that is off, cut within its source, still asks for something. */
  lemma CutOffAsks(k: string, part: string)
    requires IsName(k)
    ensures ParseLine("# CONFIG_" + k + HEAD + part).Asks?
  {
    hide NotSet, IsSpace, IsName, TrimEnd, At;
    var head := "# CONFIG_" + k + HEAD;
    var line := head + part;
    CIsNoSpace();
    NameIs(k);
    NonEmpty(k);
    HeadEnds();
    assert head[|head| - 1] == HEAD[|HEAD| - 1];
    assert line[0] == '#';
    KeepsFirst(line);
    TrimEndTail(head, part);
    CutOffIsRead(k, TrimEnd(part));
  }

  lemma HeadEnds()
    ensures !IsSpace(HEAD[|HEAD| - 1]) && |HEAD| == 23
  {
    HeadHasNoRestart();
  }

  lemma CutOffIsRead(k: string, part: string)
    requires k != "" && '=' !in k
    ensures NotSet("# CONFIG_" + k + HEAD + part).Some?
  {
    hide NameEnd, SourceOf;
    var line := "# CONFIG_" + k + HEAD + part;
    var rest := k + (HEAD + part);
    assert line[..9] == "# CONFIG_" && line[9..] == rest;
    HeadHasNoRestart();
    assert HEAD[..11] == NOT_SET;
    assert (HEAD + part)[0..11] == NOT_SET;
    AtShift(k, HEAD + part, 0, NOT_SET);
    assert rest[..|k|] == k;
    NameEndAtLeast(rest, |rest|, |k|);
  }

  lemma LineEndSkips(head: string, tail: string)
    requires OneLine(head) && !OneLine(tail)
    ensures LineEnd(head + tail) == |head| + LineEnd(tail) && LineEnd(tail) < |tail|
  {
    var n := LineEnd(tail);
    LineEndOf(tail);
    assert (head + tail)[..|head| + n] == head + tail[..n];
    OneLineAdd(head, tail[..n]);
    LineEndIs(head + tail, |head| + n);
  }

  lemma HeadOfOff(e: Entry)
    requires IsName(e.key) && e.value == B(false) && e.userSet && e.source != ""
    ensures EntryLine(e) == "# CONFIG_" + e.key + HEAD + (e.source + ")") && OneLine("# CONFIG_" + e.key + HEAD)
  {
    hide *;
    FullTail(e.source);
    OffLine(e);
    Four("# CONFIG_", e.key, HEAD, e.source + ")");
    NameIs(e.key);
    HeadIsOneLine();
    OneLineAdd("# CONFIG_", e.key);
    OneLineAdd("# CONFIG_" + e.key, HEAD);
  }

  lemma Four(a: string, b: string, c: string, d: string)
    ensures a + (b + (c + d)) == a + b + c + d
  {
  }

  lemma HeadIsOneLine()
    ensures OneLine(HEAD) && OneLine("# CONFIG_")
  {
    assert HEAD == " is not set" + " [by user]" + " (";
    OneLineAdd(" is not set", " [by user]");
    OneLineAdd(" is not set" + " [by user]", " (");
  }

  /** The first line of a broken option asks for something else, or does not read. */
  lemma BrokenReads(e: Entry)
    requires IsName(e.key) && Broken(e)
    ensures var s := EntryLine(e);
            && LineEnd(s) < |s|
            && ParseLine(s[..LineEnd(s)]) != Nothing
            && ParseLine(s[..LineEnd(s)]) != Asks(CallOf(e))
  {
    hide ParseLine, Within, OneLine, Quote, IsName;
    var s := EntryLine(e);
    if e.value == B(false) {
      hide EntryLine, SourceOf;
      SourceBreaks(e.source);
      HeadOfOff(e);
      var head := "# CONFIG_" + e.key + HEAD;
      OneLineAdd(e.source, ")");
      LineEndSkips(head, e.source + ")");
      var m := LineEnd(e.source + ")");
      assert s[..LineEnd(s)] == head + (e.source + ")")[..m];
      CutOffAsks(e.key, (e.source + ")")[..m]);
    } else {
      BrokenAssignment(e);
    }
    if ParseLine(s[..LineEnd(s)]).Asks? {
      BrokenIsLost(e, s[..LineEnd(s)]);
    }
  }

  lemma BrokenAssignment(e: Entry)
    requires IsName(e.key) && Broken(e) && e.value != B(false)
    ensures var s := EntryLine(e); LineEnd(s) < |s| && ParseLine(s[..LineEnd(s)]) != Nothing
  {
    hide ParseLine, OneLine, Quote, IsName, SourceText, Strip, IsSpace;
    var s := EntryLine(e);
    NewlineWritten(e);
    assert s[0] == 'C' && !IsNewline('C');
    var n := LineEnd(s);
    LineEndOf(s);
    CIsNoSpace();
    KeepsFirst(s[..n]);
    TextHasNoHash(s[..n]);
  }

  lemma NewlineWritten(e: Entry)
    requires Broken(e) && e.value != B(false)
    ensures !OneLine(EntryLine(e))
  {
    hide OneLine, Quote, IsNewline;
    var head := "CONFIG_" + e.key + "=";
    var tail := if e.userSet then " # set by user" + SourceText(e.source) else "";
    assert EntryLine(e) == head + Written(e.value) + tail;
    OneLineAdd(head, Written(e.value));
    OneLineAdd(head + Written(e.value), tail);
    if e.value.S? && !OneLine(e.value.s) {
      QuoteBreaks(e.value.s);
    } else {
      SourceBreaks(e.source);
      OneLineAdd(" # set by user", SourceText(e.source));
    }
  }

  lemma NoNewlineIn(s: string, c: char)
    requires OneLine(s) && c in s
    ensures !IsNewline(c)
  {
  }

  lemma QuoteBreaks(s: string)
    requires !OneLine(s)
    ensures !OneLine("\"" + Quote(s) + "\"")
  {
    hide Quote;
    var c := HasNewline(s);
    QuoteKeeps(s, c);
    if OneLine(Quote(s)) {
      NoNewlineIn(Quote(s), c);
    }
    OneLineAdd("\"", Quote(s));
    OneLineAdd("\"" + Quote(s), "\"");
  }

  lemma SourceBreaks(source: string)
    requires !OneLine(source)
    ensures !OneLine(SourceText(source)) && source != ""
  {
    OneLineAdd(" (", source);
    OneLineAdd(" (" + source, ")");
  }

  /*** The whole file ***/

  lemma EntryLineIsOne(e: Entry)
    requires IsName(e.key) && !Broken(e)
    ensures OneLine(EntryLine(e))
  {
    hide OneLine, IsName;
    NameIs(e.key);
    Marks();
    if e.userSet {
      SourceIsOne(e.source);
    }
    if e.value == B(false) {
      var tail := if e.userSet then " [by user]" + SourceText(e.source) else "";
      OneLineAdd("# CONFIG_", e.key);
      OneLineAdd("# CONFIG_" + e.key, " is not set");
      OneLineAdd(" [by user]", SourceText(e.source));
      OneLineAdd("# CONFIG_" + e.key + " is not set", tail);
    } else {
      var tail := if e.userSet then " # set by user" + SourceText(e.source) else "";
      WrittenIsSolid(e.value);
      OneLineAdd("CONFIG_", e.key);
      OneLineAdd("CONFIG_" + e.key, "=");
      OneLineAdd("CONFIG_" + e.key + "=", Written(e.value));
      OneLineAdd(" # set by user", SourceText(e.source));
      OneLineAdd("CONFIG_" + e.key + "=" + Written(e.value), tail);
    }
  }

  lemma Marks()
    ensures OneLine("# CONFIG_") && OneLine(" is not set") && OneLine(" [by user]") && OneLine("CONFIG_") &&
            OneLine("=")
    ensures OneLine(" # set by user") && OneLine("") && OneLine("#") && OneLine("# ")
  {
  }

  lemma SourceIsOne(source: string)
    requires OneLine(source)
    ensures OneLine(SourceText(source))
  {
    OneLineAdd(" (", source);
    OneLineAdd(" (" + source, ")");
  }

  lemma StripsToHash(t: string)
    ensures Strip("# " + t) != "" && Strip("# " + t)[0] == '#'
  {
    CIsNoSpace();
    KeepsFirst("# " + t);
  }

  lemma {:induction false} KeepsFirst(s: string)
    requires s != "" && !IsSpace(s[0])
    ensures TrimEnd(s) != "" && TrimEnd(s)[0] == s[0] && Strip(s) == TrimEnd(s)
  {
    if IsSpace(s[|s| - 1]) {
      KeepsFirst(s[..|s| - 1]);
    }
  }

  function Both(a: Option<seq<Call>>, b: Option<seq<Call>>): Option<seq<Call>> {
    match (a, b)
    case (Some(x), Some(y)) => Some(x + y)
    case _ => None
  }

  lemma {:induction false} ParseAllAdd(a: seq<string>, b: seq<string>)
    ensures ParseAll(a + b) == Both(ParseAll(a), ParseAll(b))
  {
    hide ParseLine;
    if a == [] {
      assert a + b == b;
      if ParseAll(b).Some? {
        assert [] + ParseAll(b).value == ParseAll(b).value;
      }
    } else {
      ParseAllAdd(a[1..], b);
      assert (a + b)[1..] == a[1..] + b;
      if ParseLine(a[0]).Asks? && ParseAll(a[1..]).Some? && ParseAll(b).Some? {
        var c := ParseLine(a[0]).call;
        assert [c] + (ParseAll(a[1..]).value + ParseAll(b).value) == [c] + ParseAll(a[1..]).value + ParseAll(b).value;
      }
    }
  }

  /** Whole lines read the same whatever follows them. */
  lemma ParseTextAdd(s: string, rest: string)
    ensures ParseText(s + "\n" + rest) == Both(ParseText(s + "\n"), ParseText(rest))
  {
    hide Lines, ParseAll;
    LinesAdd(s, rest);
    ParseAllAdd(Lines(s + "\n"), Lines(rest));
  }

  /** What comes back of an option alone: nothing at all, or something for it. */
  lemma EntryComesBack(e: Entry)
    requires IsName(e.key)
    ensures var p := ParseText(EntryLine(e) + "\n");
            (p.Some? ==> |p.value| >= 1) && (p == Some([CallOf(e)]) <==> !MisreadEntry(e))
  {
    hide ParseLine, EntryLine, Misleading, CallOf, IsName, OneLine, Lines, LineEnd, ParseAll;
    var s := EntryLine(e);
    FirstOf(s);
    var n := LineEnd(s);
    if Broken(e) {
      BrokenReads(e);
      assert Lines(s + "\n") == [s[..n]] + Lines(s + "\n")[1..];
      ParseFirst(s[..n], Lines(s + "\n")[1..]);
    } else {
      EntryLineIsOne(e);
      WholeLine(s);
      if e.value == B(false) {
        OffComesBack(e);
      } else {
        AssignmentComesBack(e);
      }
      ParseFirst(s, []);
      assert [s] + [] == [s];
    }
  }

  lemma WholeLine(s: string)
    requires OneLine(s)
    ensures Lines(s + "\n") == [s]
  {
    FirstLine(s, "");
    assert s + "\n" + "" == s + "\n";
    assert Lines("") == [];
  }

  lemma ParseFirst(line: string, more: seq<string>)
    requires ParseLine(line) != Nothing
    ensures var p := ParseAll([line] + more);
            && (p.Some? ==> ParseLine(line).Asks? && |p.value| >= 1 && p.value[0] == ParseLine(line).call)
            && (more == [] && ParseLine(line).Asks? ==> p == Some([ParseLine(line).call]))
  {
    hide ParseLine;
    assert ([line] + more)[1..] == more;
    if ParseLine(line).Asks? {
      assert [ParseLine(line).call] + [] == [ParseLine(line).call];
    }
  }

  lemma {:induction false} AllNothing(lines: seq<string>)
    ensures ParseAll(lines) == Some([]) <==> forall line :: line in lines ==> ParseLine(line) == Nothing
  {
    hide ParseLine;
    if lines != [] {
      AllNothing(lines[1..]);
      assert lines == [lines[0]] + lines[1..];
    }
  }

  lemma BareLines()
    ensures ParseLine("") == Nothing && ParseLine("#") == Nothing
  {
    CIsNoSpace();
    StripIs("#");
  }

  /** A menu adds nothing exactly when its title is not misread. */
  lemma MenuComesBack(t: string)
    ensures ParseText("\n#\n# " + t + "\n#\n") == Some([]) <==> !MisreadTitle(t)
  {
    hide ParseLine, Lines, ParseAll;
    Marks();
    BareLines();
    var lines := Lines("# " + t + "\n");
    assert "\n#\n# " + t + "\n#\n" == "" + "\n" + ("#" + "\n" + ("# " + t + "\n" + ("#" + "\n")));
    FirstLine("", "#" + "\n" + ("# " + t + "\n" + ("#" + "\n")));
    FirstLine("#", "# " + t + "\n" + ("#" + "\n"));
    LinesAdd("# " + t, "#" + "\n");
    WholeLine("#");
    AllNothing([""] + (["#"] + (lines + ["#"])));
    forall line
      ensures line in [""] + (["#"] + (lines + ["#"])) <==> line == "" || line == "#" || line in lines
    {
    }
  }

  /** For a title on one line it is enough to look for an option that is not set in it. */
  lemma TitleOnOneLine(t: string)
    requires OneLine(t)
    ensures MisreadTitle(t) <==> NotSet(Strip("# " + t)).Some?
  {
    hide NotSet, Lines, Strip;
    Marks();
    OneLineAdd("# ", t);
    WholeLine("# " + t);
    StripsToHash(t);
    assert "# " + t in Lines("# " + t + "\n");
  }

  /** What an item adds to the file reads the same whatever follows it. */
  lemma ItemAlone(i: Item, rest: string)
    ensures ParseText(ItemText(i) + rest) == Both(ParseText(ItemText(i)), ParseText(rest))
  {
    hide ParseText, EntryLine;
    match i
    case Config(e, true) => ParseTextAdd(EntryLine(e), rest);
    case Config(_, false) =>
      NothingToRead();
      assert "" + rest == rest;
      if ParseText(rest).Some? {
        assert [] + ParseText(rest).value == ParseText(rest).value;
      }
    case Menu(t) =>
      var s := "\n#\n# " + t + "\n#";
      assert ItemText(i) == s + "\n";
      ParseTextAdd(s, rest);
  }

  lemma ItemComesBack(i: Item)
    requires i.Config? ==> IsName(i.entry.key)
    ensures var own := CallsOf([i]);
            var p := ParseText(ItemText(i));
            (p.Some? ==> |p.value| >= |own|) && (p == Some(own) <==> !Misread(i))
  {
    hide ParseText, EntryLine, CallOf, IsName, MisreadEntry, MisreadTitle;
    OneItem(i);
    match i
    case Config(e, true) => EntryComesBack(e);
    case Config(_, false) => NothingToRead();
    case Menu(t) => MenuComesBack(t);
  }

  lemma OneItem(i: Item)
    ensures CallsOf([i]) == match i case Config(e, true) => [CallOf(e)] case _ => []
  {
    assert [i][1..] == [];
  }

  /** A file reads back as it was written, key for key, with the texts, the user's marks and
      their sources, exactly when nothing in it is misread. */
  lemma {:induction false} FileComesBack(items: seq<Item>)
    requires forall i :: i in items && i.Config? ==> IsName(i.entry.key)
    ensures ParseText(FileText(items)) == Some(CallsOf(items)) <==> forall i :: i in items ==> !Misread(i)
    ensures ParseText(FileText(items)).Some? ==> |ParseText(FileText(items)).value| >= |CallsOf(items)|
  {
    hide ParseText, Misread, CallOf, ItemText, IsName;
    if items == [] {
      NothingToRead();
    } else {
      assert items[0] in items;
      FileComesBack(items[1..]);
      ItemComesBack(items[0]);
      ItemAlone(items[0], FileText(items[1..]));
      OneItem(items[0]);
      BothAre(ParseText(ItemText(items[0])), ParseText(FileText(items[1..])), CallsOf([items[0]]), CallsOf(items[1..]));
      assert forall i :: i in items <==> i == items[0] || i in items[1..];
    }
  }

  /** Two results at least as long as they should be are right together only if both are. */
  lemma BothAre(a: Option<seq<Call>>, b: Option<seq<Call>>, cs: seq<Call>, ds: seq<Call>)
    requires (a.Some? ==> |a.value| >= |cs|) && (b.Some? ==> |b.value| >= |ds|)
    ensures Both(a, b) == Some(cs + ds) <==> a == Some(cs) && b == Some(ds)
  {
    if a.Some? && b.Some? && a.value + b.value == cs + ds {
      assert |a.value| == |cs|;
      assert (a.value + b.value)[..|cs|] == a.value && (cs + ds)[..|cs|] == cs;
      assert (a.value + b.value)[|cs|..] == b.value && (cs + ds)[|cs|..] == ds;
    }
  }

  lemma NothingToRead()
    ensures ParseText("") == Some([])
  {
  }

  /** What the lines look like. */
  lemma FormatExample()
    ensures EntryLine(Entry("A", B(true), true, "")) == "CONFIG_A=y # set by user"
    ensures EntryLine(Entry("A", B(false), true, "f")) == "# CONFIG_A is not set [by user] (f)"
  {
    hide EntryLine;
    OnByUser();
    OffByUser();
  }

  lemma OnByUser()
    ensures EntryLine(Entry("A", B(true), true, "")) == "CONFIG_A=y # set by user"
  {
    assert SourceText("") == "";
    Two("CONFIG_" + "A" + "=" + "y", " # set by user", "", "CONFIG_A=y # set by user");
  }

  lemma OffByUser()
    ensures EntryLine(Entry("A", B(false), true, "f")) == "# CONFIG_A is not set [by user] (f)"
  {
    assert SourceText("f") == " (f)";
    Two("# CONFIG_" + "A" + " is not set", " [by user]", " (f)", "# CONFIG_A is not set [by user] (f)");
  }

  /** A source that misleads: the option comes back under another name. */
  lemma MisreadExample()
    ensures var items := [Config(Entry("A", B(false), true, "B is not set"), true)];
            ParseText(FileText(items)) != Some(CallsOf(items))
  {
    hide ParseText, FileText, CallsOf, NotSet;
    var s := "B is not set";
    assert s[1..12] == NOT_SET && s[..1] == "B";
    assert At(s, 1, NOT_SET);
    var items := [Config(Entry("A", B(false), true, s), true)];
    assert Misread(items[0]);
    FileComesBack(items);
  }

  /** A text with a hash: the option comes back with what stands before it, opening quote
      included. */
  lemma HashExample()
    ensures var e := Entry("A", S("x#y"), false, "");
            && EntryLine(e) == "CONFIG_A=\"x#y\""
            && ParseLine(EntryLine(e)) == Asks(Call("A", "\"x", false, ""))
            && ParseText(FileText([Config(e, true)])) != Some(CallsOf([Config(e, true)]))
  {
    hide ParseText, FileText, CallsOf, ParseLine, EntryLine;
    var e := Entry("A", S("x#y"), false, "");
    HashLine(e);
    HashRead();
    assert "x#y"[1] in "x#y";
    assert Misread(Config(e, true)) && Config(e, true) in [Config(e, true)];
    FileComesBack([Config(e, true)]);
  }

  /** A menu's title that reads as an option. */
  lemma TitleExample()
    ensures var items := [Menu("CONFIG_X is not set")];
            CallsOf(items) == [] && ParseText(FileText(items)) == Some([Call("X", "n", false, "")])
  {
    hide ParseText, ParseLine, FileText;
    var t := "CONFIG_X is not set";
    TitleRead();
    assert "# " + t == "# CONFIG_X is not set";
    TitleLines(t);
    OneItem(Menu(t));
    assert [Menu(t)][1..] == [];
    OnlyItem(Menu(t));
  }

  lemma OnlyItem(i: Item)
    ensures FileText([i]) == ItemText(i)
  {
    assert [i][1..] == [];
    assert ItemText(i) + "" == ItemText(i);
  }

  lemma TitleLines(t: string)
    requires OneLine(t) && ParseLine("# " + t).Asks?
    ensures ParseText("\n#\n# " + t + "\n#\n") == Some([ParseLine("# " + t).call])
  {
    hide ParseLine, Lines;
    Marks();
    BareLines();
    OneLineAdd("# ", t);
    assert "\n#\n# " + t + "\n#\n" == "" + "\n" + ("#" + "\n" + ("# " + t + "\n" + ("#" + "\n")));
    FirstLine("", "#" + "\n" + ("# " + t + "\n" + ("#" + "\n")));
    FirstLine("#", "# " + t + "\n" + ("#" + "\n"));
    FirstLine("# " + t, "#" + "\n");
    WholeLine("#");
    var l := ["", "#", "# " + t, "#"];
    assert [""] + (["#"] + (["# " + t] + ["#"])) == l;
    assert l[1..] == ["#", "# " + t, "#"] && l[1..][1..] == ["# " + t, "#"];
    assert l[1..][1..][1..] == ["#"] && ["#"][1..] == [];
    assert ParseAll(["#"]) == ParseAll([]) == Some([]);
    var c := ParseLine("# " + t).call;
    assert ["# " + t, "#"][1..] == ["#"] && [c] + [] == [c];
    assert ParseAll(["# " + t, "#"]) == Some([c]);
    assert ParseAll(l[1..]) == ParseAll(l[1..][1..]);
  }

  lemma TitleRead()
    ensures OneLine("CONFIG_X is not set") && ParseLine("# CONFIG_X is not set") == Asks(Call("X", "n", false, ""))
  {
    hide NotSet, IsSpace, NameEnd, Misleading, OffTail;
    XIsName();
    var e := Entry("X", B(false), false, "");
    assert "# CONFIG_" + "X" + " is not set" + "" == "# CONFIG_X is not set";
    OffComesBack(e);
    Marks();
    OneLineAdd("CONFIG_", "X");
    OneLineAdd("CONFIG_" + "X", " is not set");
  }

  lemma XIsName()
    ensures IsName("X") && OneLine("X")
  {
  }

  lemma HashLine(e: Entry)
    requires e == Entry("A", S("x#y"), false, "")
    ensures EntryLine(e) == "CONFIG_A=\"x#y\""
  {
    hide Quote;
    NothingQuoted();
    Two("\"", "x#y", "\"", "\"x#y\"");
    Two("CONFIG_" + "A", "=", "\"x#y\"", "CONFIG_A=\"x#y\"");
    assert EntryLine(e) == "CONFIG_" + "A" + "=" + "\"x#y\"" + "";
  }

  lemma Two(a: string, b: string, c: string, s: string)
    requires s == a + b + c
    ensures a + b + c + "" == s && a + (b + c) == s
  {
  }

  lemma NothingQuoted()
    ensures Quote("x#y") == "x#y"
  {
    assert "x#y"[1..] == "#y" && "#y"[1..] == "y" && "y"[1..] == "";
    assert Quote("y") == "y" && Quote("#y") == "#y";
  }

  lemma HashRead()
    ensures ParseLine("CONFIG_A=\"x#y\"") == Asks(Call("A", "\"x", false, ""))
  {
    hide IsSpace, Assigned, Strip, TrimEnd, IndexOf, SourceOf;
    var line, body := "CONFIG_A=\"x#y\"", "CONFIG_A=\"x";
    CIsNoSpace();
    NoSpaceHere();
    StripIs(line);
    StripIs(body);
    assert line[..11] == body && line[12..] == "y\"";
    IndexIs(line, '#', 11);
    HashAssigned();
    assert "y\""[0] != " set by user"[0];
    hide StartsWith;
    NoMark();
  }

  lemma NoMark()
    ensures !StartsWith("y\"", " set by user")
  {
  }

  lemma HashAssigned()
    ensures Assigned("CONFIG_A=\"x") == Some(("A", "\"x"))
  {
    hide IndexOf, LastIndexOf, Unescape;
    var body, rest := "CONFIG_A=\"x", "A=\"x";
    assert body[..7] == "CONFIG_" && body[7..] == rest;
    IndexIs(rest, '=', 1);
    assert rest[..1] == "A" && rest[2..] == "\"x";
    LastIndexIs("\"x", '"', 0);
  }

  lemma NoSpaceHere()
    ensures !IsSpace('x') && !IsSpace('"')
  {
  }

  /*** Values ***/

  lemma DigitsStep(s: string, d: nat)
    requires d < 10 && (s == "" || Propagation.IsDigits(s))
    ensures var t := s + ["0123456789"[d]];
            Propagation.IsDigits(t) && Propagation.Digits(t) == (if s == "" then 0 else Propagation.Digits(s) * 10) + d
  {
    var c := "0123456789"[d];
    assert c as int == '0' as int + d;
    assert (s + [c])[..|s|] == s;
  }

  lemma {:induction false} DigitsComeBack(n: nat)
    ensures Propagation.IsDigits(Digits(n)) && Propagation.Digits(Digits(n)) == n
  {
    hide Propagation.Digits, Propagation.IsDigits;
    if n < 10 {
      DigitsStep("", n);
      assert Digits(n) == "" + ["0123456789"[n]];
    } else {
      DigitsComeBack(n / 10);
      DigitsStep(Digits(n / 10), n % 10);
    }
  }

  lemma IntComesBack(n: int)
    ensures Propagation.ToInt(Decimal(n)) == Some(n)
  {
    hide Propagation.Digits, Digits, Propagation.IsDigits;
    if n < 0 {
      DigitsComeBack(-n);
      assert Decimal(n)[1..] == Digits(-n);
      NoSign(Digits(-n));
    } else {
      DigitsComeBack(n);
    }
  }

  lemma NoSign(s: string)
    ensures !Propagation.IsDigits("-" + s)
  {
    assert ("-" + s)[0] == '-';
  }

  /** The text that comes back stands for the value that was written. */
  lemma ValueComesBack(v: Value, t: Type)
    requires HasType(v, t)
    ensures Propagation.ToValue(t, TextOf(v)) == Some(v)
  {
    hide Propagation.ToInt, Decimal;
    if v.I? {
      IntComesBack(v.i);
    }
  }
}
