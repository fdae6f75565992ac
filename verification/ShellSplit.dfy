/** Splitting a configuration value into shell words, as {{shlex}} does. */
module ShellSplit {
  predicate IsSpace(c: char) {
    || c in "\t\n\r "
    || c in ['\U{000B}', '\U{000C}', '\U{0085}', '\U{00A0}', '\U{1680}', '\U{2028}', '\U{2029}', '\U{202F}',
             '\U{205F}', '\U{3000}']
    || '\U{2000}' <= c <= '\U{200A}'
  }

  /*** The splitter ***/

  datatype Scan = Scan(out: seq<string>, buf: string, inQuotes: bool, escape: bool)

  function Flush(st: Scan): Scan {
    if st.buf == "" then st else st.(out := st.out + [st.buf], buf := "")
  }

  function Read(st: Scan, c: char): Scan {
    if st.escape then st.(buf := st.buf + [c], escape := false)
    else if c == '\\' then st.(escape := true)
    else if c == '"' then st.(inQuotes := !st.inQuotes)
    else if !st.inQuotes && IsSpace(c) then Flush(st)
    else st.(buf := st.buf + [c])
  }

  function ReadAll(s: string): Scan {
    if s == "" then Scan([], "", false, false) else Read(ReadAll(s[..|s| - 1]), s[|s| - 1])
  }

  function Split(s: string): seq<string> {
    Flush(ReadAll(s)).out
  }

  method SplitShell(s: string) returns (out: seq<string>)
    ensures out == Split(s)
  {
    var buf, inQuotes, escape := "", false, false;
    out := [];
    var i := 0;
    while i < |s|
      invariant 0 <= i <= |s|
      invariant ReadAll(s[..i]) == Scan(out, buf, inQuotes, escape)
    {
      var r := s[i];
      assert s[..i + 1][..i] == s[..i];
      i := i + 1;
      if escape {
        buf := buf + [r];
        escape := false;
        continue;
      }
      match r
      case '\\' => escape := true;
      case '"' => inQuotes := !inQuotes;
      case _ =>
        if !inQuotes && IsSpace(r) {
          if |buf| > 0 {
            out := out + [buf];
            buf := "";
          }
        } else {
          buf := buf + [r];
        }
    }
    assert s[..i] == s;
    if |buf| > 0 {
      out := out + [buf];
    }
  }

  /** Every quote becomes a quote that opens or closes, and an escaped one that stays. */
  function Escape(s: string): string {
    if s == "" then ""
    else Escape(s[..|s| - 1]) + if s[|s| - 1] == '"' then "\"\\\"" else [s[|s| - 1]]
  }

  method Expand(value: string) returns (words: seq<string>)
    ensures words == Words(value)
  {
    words := SplitShell(Escape(value));
  }

  function Words(value: string): seq<string> {
    Split(Escape(value))
  }

  /*** Quotes and loose spaces ***/

  /** Whether a quote is open at the end of s. */
  predicate Open(s: string) {
    s != "" && (Open(s[..|s| - 1]) != (s[|s| - 1] == '"'))
  }

  /** s without the spaces outside quotes. */
  function Kept(s: string): string {
    if s == "" then ""
    else
      var t, c := s[..|s| - 1], s[|s| - 1];
      if IsSpace(c) && !Open(t) then Kept(t) else Kept(t) + [c]
  }

  predicate LooseSpace(s: string) {
    exists i :: 0 <= i < |s| && IsSpace(s[i]) && !Open(s[..i])
  }

  function Joined(ws: seq<string>): string {
    if ws == [] then "" else Joined(ws[..|ws| - 1]) + ws[|ws| - 1]
  }

  function WithSpaces(ws: seq<string>): string {
    if ws == [] then ""
    else if |ws| == 1 then ws[0]
    else WithSpaces(ws[..|ws| - 1]) + " " + ws[|ws| - 1]
  }

  /** Words that stand for themselves: none is empty or has a space outside quotes, and all
      but the last close their quotes. */
  ghost predicate Proper(ws: seq<string>) {
    && (forall i :: 0 <= i < |ws| ==> ws[i] != "" && !LooseSpace(ws[i]) && '\\' !in ws[i])
    && (forall i :: 0 <= i < |ws| - 1 ==> !Open(ws[i]))
  }

  /*** What splitting an escaped value comes to ***/

  lemma Last(s: string, c: char)
    ensures (s + [c])[..|s|] == s && (s + [c])[|s|] == c
  {
  }

  lemma ReadMore(s: string, c: char)
    ensures ReadAll(s + [c]) == Read(ReadAll(s), c)
  {
    Last(s, c);
  }

  lemma EscapeIs(s: string, c: char)
    ensures Escape(s + [c]) == Escape(s) + if c == '"' then "\"\\\"" else [c]
    ensures Escape("") == ""
  {
    Last(s, c);
  }

  lemma ReadQuote(e: string)
    ensures ReadAll(e + "\"\\\"") == Read(Read(Read(ReadAll(e), '"'), '\\'), '"')
  {
    ReadMore(e, '"');
    ReadMore(e + ['"'], '\\');
    ReadMore(e + ['"'] + ['\\'], '"');
    assert e + "\"\\\"" == e + ['"'] + ['\\'] + ['"'];
  }

  /** What the splitter does on one character of the value, escaped. */
  function Take(st: Scan, c: char): Scan {
    if c == '"' then Read(Read(Read(st, '"'), '\\'), '"') else Read(st, c)
  }

  lemma ReadEscaped(s: string, c: char)
    ensures ReadAll(Escape(s + [c])) == Take(ReadAll(Escape(s)), c)
  {
    hide ReadAll, Read, Escape;
    EscapeIs(s, c);
    if c == '"' {
      ReadQuote(Escape(s));
    } else {
      ReadMore(Escape(s), c);
    }
  }

  /** The splitter's quotes are the quotes of s. What it has read is what is kept, and the
      words are proper. */
  ghost predicate Plain(s: string, st: Scan) {
    && !st.escape && st.inQuotes == Open(s) && Open(st.buf) == Open(s)
    && Joined(st.out) + st.buf == Kept(s)
    && !LooseSpace(st.buf) && '\\' !in st.buf
    && Proper(st.out) && forall i :: 0 <= i < |st.out| ==> !Open(st.out[i])
  }

  lemma {:induction false} PlainRead(s: string)
    requires '\\' !in s
    ensures Plain(s, ReadAll(Escape(s)))
  {
    hide Plain;
    if s == "" {
      EscapeIs("", 'x');
      PlainStart();
    } else {
      var n := |s| - 1;
      assert s == s[..n] + [s[n]];
      PlainRead(s[..n]);
      ReadEscaped(s[..n], s[n]);
      PlainStep(s[..n], ReadAll(Escape(s[..n])), s[n]);
    }
  }

  lemma PlainStart()
    ensures Plain("", ReadAll(""))
  {
    NotLoose("");
  }

  lemma OpenMore(s: string, c: char)
    ensures Open(s + [c]) == (Open(s) != (c == '"'))
    ensures Kept(s + [c]) == if IsSpace(c) && !Open(s) then Kept(s) else Kept(s) + [c]
  {
    Last(s, c);
  }

  lemma TakeIs(st: Scan, c: char)
    requires c != '\\' && !st.escape
    ensures Take(st, c) ==
            if !st.inQuotes && IsSpace(c) then Flush(st)
            else st.(buf := st.buf + [c], inQuotes := st.inQuotes != (c == '"'))
  {
  }

  lemma PlainStep(s: string, st: Scan, c: char)
    requires Plain(s, st) && c != '\\'
    ensures Plain(s + [c], Take(st, c))
  {
    hide Take, Open, Kept, LooseSpace, Proper, Joined, Flush, IsSpace;
    TakeIs(st, c);
    OpenMore(s, c);
    if !st.inQuotes && IsSpace(c) {
      SpaceIsNoQuote(c);
      PlainFlush(st);
    } else {
      OpenMore(st.buf, c);
      GrowLoose(st.buf, c);
      assert Joined(st.out) + (st.buf + [c]) == Joined(st.out) + st.buf + [c];
    }
  }

  lemma SpaceIsNoQuote(c: char)
    ensures IsSpace(c) ==> c != '"' && c != '\\'
  {
  }

  lemma PlainFlush(st: Scan)
    requires !LooseSpace(st.buf) && '\\' !in st.buf && !Open(st.buf)
    requires Proper(st.out) && forall i :: 0 <= i < |st.out| ==> !Open(st.out[i])
    ensures var r := Flush(st);
            && r.buf == "" && r.inQuotes == st.inQuotes && r.escape == st.escape
            && Joined(r.out) == Joined(st.out) + st.buf
            && !LooseSpace(r.buf) && !Open(r.buf)
            && Proper(r.out) && (forall i :: 0 <= i < |r.out| ==> !Open(r.out[i]))
  {
    hide LooseSpace, IsSpace;
    NotLoose("");
    if st.buf != "" {
      assert (st.out + [st.buf])[..|st.out|] == st.out;
    }
  }

  lemma NotLoose(s: string)
    requires s == ""
    ensures !LooseSpace(s)
  {
  }

  lemma GrowLoose(s: string, c: char)
    ensures LooseSpace(s + [c]) <==> LooseSpace(s) || (IsSpace(c) && !Open(s))
  {
    var t := s + [c];
    assert forall i :: 0 <= i <= |s| ==> t[..i] == s[..i];
    assert t[..|s|] == s;
    if LooseSpace(s) {
      var i :| 0 <= i < |s| && IsSpace(s[i]) && !Open(s[..i]);
      assert IsSpace(t[i]) && !Open(t[..i]);
    }
    if IsSpace(c) && !Open(s) {
      assert IsSpace(t[|s|]) && !Open(t[..|s|]);
    }
  }

  /*** Backslashes ***/

  function Backslashes(s: string): nat {
    if s == "" then 0 else Backslashes(s[..|s| - 1]) + if s[|s| - 1] == '\\' then 1 else 0
  }

  lemma {:induction false} BackslashesAdd(s: string, t: string)
    ensures Backslashes(s + t) == Backslashes(s) + Backslashes(t)
  {
    if t == "" {
      assert s + t == s;
    } else {
      var n := |t| - 1;
      BackslashesAdd(s, t[..n]);
      assert (s + t)[..|s + t| - 1] == s + t[..n];
    }
  }

  lemma {:induction false} NoBackslashes(s: string)
    ensures Backslashes(s) == 0 <==> '\\' !in s
  {
    if s != "" {
      NoBackslashes(s[..|s| - 1]);
    }
  }

  lemma {:induction false} KeptBackslashes(s: string)
    ensures Backslashes(Kept(s)) == Backslashes(s)
  {
    if s != "" {
      var n := |s| - 1;
      KeptBackslashes(s[..n]);
      BackslashesAdd(Kept(s[..n]), [s[n]]);
      OneCharacter(s[n]);
    }
  }

  lemma OneCharacter(c: char)
    ensures Backslashes([c]) == (if c == '\\' then 1 else 0) && (IsSpace(c) ==> c != '\\')
    ensures Backslashes("") == 0
  {
    assert [c][..0] == "";
  }

  function Through(st: Scan): nat {
    2 * (Backslashes(Joined(st.out)) + Backslashes(st.buf)) + if st.escape then 1 else 0
  }

  lemma FlushThrough(st: Scan)
    ensures Through(Flush(st)) == Through(st)
  {
    if st.buf != "" {
      assert (st.out + [st.buf])[..|st.out|] == st.out;
      BackslashesAdd(Joined(st.out), st.buf);
    }
  }

  lemma TakeThrough(st: Scan, c: char)
    ensures Through(Take(st, c)) <= Through(st) + if c == '\\' then 1 else 0
  {
    hide Joined, IsSpace, Flush, Backslashes;
    OneCharacter(c);
    OneCharacter('"');
    FlushThrough(st);
    FlushKeeps(st);
    BackslashesAdd(st.buf, [c]);
    BackslashesAdd(st.buf, ['"']);
    BackslashesAdd(st.buf + ['"'], ['"']);
  }

  lemma FlushKeeps(st: Scan)
    ensures Flush(st).escape == st.escape && Flush(st).inQuotes == st.inQuotes
  {
  }

  /** Of two backslashes at most one comes through. */
  lemma {:induction false} ReadThrough(s: string)
    ensures Through(ReadAll(Escape(s))) <= Backslashes(s)
  {
    hide Take;
    if s != "" {
      var n := |s| - 1;
      assert s == s[..n] + [s[n]];
      ReadThrough(s[..n]);
      ReadEscaped(s[..n], s[n]);
      TakeThrough(ReadAll(Escape(s[..n])), s[n]);
    }
  }

  lemma WordsThrough(value: string)
    ensures 2 * Backslashes(Joined(Words(value))) <= Backslashes(value)
  {
    hide Joined, Backslashes, ReadAll, Escape, Flush;
    ReadThrough(value);
    FlushThrough(ReadAll(Escape(value)));
  }

  /*** The words of a value ***/

  lemma PlainWords(value: string)
    requires '\\' !in value
    ensures Proper(Words(value)) && Joined(Words(value)) == Kept(value)
  {
    hide ReadAll, Escape, Open, LooseSpace, Kept;
    PlainRead(value);
    var st := ReadAll(Escape(value));
    if st.buf != "" {
      assert (st.out + [st.buf])[..|st.out|] == st.out;
    }
  }

  /** The words of a value lose its spaces outside quotes and nothing else, exactly when the
      value has no backslash. */
  lemma NothingLost(value: string)
    ensures Joined(Words(value)) == Kept(value) <==> '\\' !in value
  {
    hide *;
    if '\\' !in value {
      PlainWords(value);
    } else {
      NoBackslashes(value);
      KeptBackslashes(value);
      WordsThrough(value);
    }
  }

  /** Words that hold no loose space come through the splitter as they are. */
  lemma {:induction false} TakeWord(j: string, out: seq<string>, w: string)
    requires ReadAll(Escape(j)) == Scan(out, "", false, false) && !LooseSpace(w) && '\\' !in w
    ensures ReadAll(Escape(j + w)) == Scan(out, w, Open(w), false)
  {
    hide ReadAll, Escape, Take, LooseSpace, IsSpace;
    if w == "" {
      assert j + w == j;
    } else {
      var n := |w| - 1;
      var v, c := w[..n], w[n];
      assert w == v + [c];
      GrowLoose(v, c);
      TakeWord(j, out, v);
      ReadEscaped(j + v, c);
      assert j + v + [c] == j + w;
      TakeIs(Scan(out, v, Open(v), false), c);
    }
  }

  lemma TakeSpace(j: string, out: seq<string>, w: string)
    requires ReadAll(Escape(j)) == Scan(out, w, false, false) && w != ""
    ensures ReadAll(Escape(j + " ")) == Scan(out + [w], "", false, false)
  {
    hide ReadAll, Escape, Take;
    assert j + " " == j + [' '];
    ReadEscaped(j, ' ');
    TakeIs(Scan(out, w, false, false), ' ');
  }

  lemma {:induction false} ReadJoined(ws: seq<string>)
    requires Proper(ws) && ws != []
    ensures var n := |ws| - 1; ReadAll(Escape(WithSpaces(ws))) == Scan(ws[..n], ws[n], Open(ws[n]), false)
  {
    hide ReadAll, Escape, LooseSpace, Open;
    var n := |ws| - 1;
    if n == 0 {
      EmptyRead();
      TakeWord("", [], ws[0]);
      assert "" + ws[0] == ws[0] && ws[..0] == [];
    } else {
      var vs := ws[..n];
      assert Proper(vs);
      ReadJoined(vs);
      TakeSpace(WithSpaces(vs), vs[..n - 1], vs[n - 1]);
      assert vs[..n - 1] + [vs[n - 1]] == vs;
      TakeWord(WithSpaces(vs) + " ", vs, ws[n]);
    }
  }

  lemma EmptyRead()
    ensures ReadAll(Escape("")) == Scan([], "", false, false)
  {
  }

  lemma {:induction false} SpacedBackslashes(ws: seq<string>)
    ensures Backslashes(WithSpaces(ws)) == Backslashes(Joined(ws))
  {
    hide Backslashes;
    if |ws| == 1 {
      assert Joined(ws[..0]) == "" && "" + ws[0] == ws[0];
    } else if |ws| > 1 {
      var n := |ws| - 1;
      SpacedBackslashes(ws[..n]);
      OneCharacter(' ');
      BackslashesAdd(WithSpaces(ws[..n]), " ");
      BackslashesAdd(WithSpaces(ws[..n]) + " ", ws[n]);
      BackslashesAdd(Joined(ws[..n]), ws[n]);
    }
  }

  /** Joined with spaces and split again, words come out the same exactly when they are
      proper. */
  lemma SplitAgain(ws: seq<string>)
    ensures Words(WithSpaces(ws)) == ws <==> Proper(ws)
  {
    hide ReadAll, Escape, Open, LooseSpace, Backslashes, Joined;
    var j := WithSpaces(ws);
    if Proper(ws) {
      if ws == [] {
        EmptyRead();
      } else {
        ReadJoined(ws);
      }
    } else if Words(j) == ws {
      WordsThrough(j);
      SpacedBackslashes(ws);
      NoBackslashes(j);
      PlainWords(j);
    }
  }

  /*** When splitting is final ***/

  /** The last backslash of v waits for what it escapes. */
  predicate Pending(v: string) {
    v != "" && v[|v| - 1] == '\\' && !Pending(v[..|v| - 1])
  }

  /** Whether a quote is open at the end of v, escaped ones apart. */
  predicate QuoteOpen(v: string) {
    v != "" && (QuoteOpen(v[..|v| - 1]) != (v[|v| - 1] == '"' && !Pending(v[..|v| - 1])))
  }

  /** After v a backslash escapes another one, or white space outside quotes. */
  predicate BitesAt(v: string, c: char) {
    Pending(v) && (c == '\\' || (IsSpace(c) && !QuoteOpen(v)))
  }

  predicate Bites(v: string) {
    exists i :: 0 <= i < |v| && BitesAt(v[..i], v[i])
  }

  lemma BitesMore(v: string, c: char)
    ensures Bites(v + [c]) <==> Bites(v) || BitesAt(v, c)
    ensures Pending(v + [c]) <==> c == '\\' && !Pending(v)
    ensures QuoteOpen(v + [c]) <==> QuoteOpen(v) != (c == '"' && !Pending(v))
  {
    var w := v + [c];
    Last(v, c);
    assert forall i :: 0 <= i <= |v| ==> w[..i] == v[..i];
    hide BitesAt;
    if Bites(v) {
      var i :| 0 <= i < |v| && BitesAt(v[..i], v[i]);
      assert BitesAt(w[..i], w[i]);
    }
    if BitesAt(v, c) {
      assert BitesAt(w[..|v|], w[|v|]);
    }
  }

  predicate Fine(w: string) {
    !LooseSpace(w) && '\\' !in w
  }

  ghost predicate Closed(ws: seq<string>) {
    forall i :: 0 <= i < |ws| ==> ws[i] != "" && !Open(ws[i])
  }

  ghost predicate AllFine(ws: seq<string>) {
    forall i :: 0 <= i < |ws| ==> Fine(ws[i])
  }

  /** Whatever backslashes there are, the open quotes of what the splitter has read are
      those of v; and it has read a backslash or a loose space exactly when v bites. */
  ghost predicate Follows(v: string, st: Scan) {
    && st.escape == Pending(v) && st.inQuotes == QuoteOpen(v) && Open(st.buf) == QuoteOpen(v)
    && Closed(st.out) && (Fine(st.buf) && AllFine(st.out) <==> !Bites(v))
  }

  lemma TakeEscaped(st: Scan, c: char)
    ensures st.escape ==> Take(st, c) == st.(buf := st.buf + if c == '"' then ['"'] + ['"'] else [c], escape := false)
    ensures !st.escape && c == '\\' ==> Take(st, c) == st.(escape := true)
  {
    assert st.buf + ['"'] + ['"'] == st.buf + (['"'] + ['"']);
  }

  lemma FineMore(w: string, c: char)
    ensures Fine(w + [c]) <==> Fine(w) && c != '\\' && !(IsSpace(c) && !Open(w))
  {
    hide LooseSpace, IsSpace, Open;
    GrowLoose(w, c);
  }

  lemma FollowsEscaped(v: string, st: Scan, c: char)
    requires Follows(v, st) && st.escape
    ensures Follows(v + [c], Take(st, c))
  {
    hide Take, Open, QuoteOpen, Pending, Bites, IsSpace, Fine, Closed, AllFine;
    TakeEscaped(st, c);
    BitesMore(v, c);
    OpenMore(st.buf, c);
    FineMore(st.buf, c);
    SpaceIsNoQuote(c);
    if c == '"' {
      OpenMore(st.buf + ['"'], '"');
      FineMore(st.buf + ['"'], '"');
      assert st.buf + (['"'] + ['"']) == st.buf + ['"'] + ['"'];
    }
  }

  lemma FollowsFlush(v: string, st: Scan)
    requires Closed(st.out) && !Open(st.buf)
    ensures var r := Flush(st);
            && r.buf == "" && r.inQuotes == st.inQuotes && r.escape == st.escape && !Open(r.buf)
            && Closed(r.out) && (Fine(r.buf) && AllFine(r.out) <==> Fine(st.buf) && AllFine(st.out))
  {
    NotLoose("");
    hide LooseSpace;
    if st.buf != "" {
      var out := st.out + [st.buf];
      assert out[|st.out|] == st.buf;
      assert forall i :: 0 <= i < |st.out| ==> out[i] == st.out[i];
    }
  }

  lemma FollowsPlain(v: string, st: Scan, c: char)
    requires Follows(v, st) && !st.escape
    ensures Follows(v + [c], Take(st, c))
  {
    hide Take, Open, QuoteOpen, Pending, Bites, IsSpace, Fine, Closed, AllFine, Flush;
    TakeEscaped(st, c);
    BitesMore(v, c);
    SpaceIsNoQuote(c);
    if c != '\\' {
      TakeIs(st, c);
      if !st.inQuotes && IsSpace(c) {
        FollowsFlush(v, st);
      } else {
        OpenMore(st.buf, c);
        FineMore(st.buf, c);
      }
    }
  }

  lemma {:induction false} FollowsRead(v: string)
    ensures Follows(v, ReadAll(Escape(v)))
  {
    hide Follows;
    if v == "" {
      EscapeIs("", 'x');
      FollowsStart();
    } else {
      var n := |v| - 1;
      assert v == v[..n] + [v[n]];
      FollowsRead(v[..n]);
      ReadEscaped(v[..n], v[n]);
      if ReadAll(Escape(v[..n])).escape {
        FollowsEscaped(v[..n], ReadAll(Escape(v[..n])), v[n]);
      } else {
        FollowsPlain(v[..n], ReadAll(Escape(v[..n])), v[n]);
      }
    }
  }

  lemma FollowsStart()
    ensures Follows("", ReadAll(""))
  {
    NotLoose("");
  }

  /** Words are proper exactly when the value does not bite. */
  lemma ProperWords(value: string)
    ensures Proper(Words(value)) <==> !Bites(value)
  {
    FollowsRead(value);
    var st := ReadAll(Escape(value));
    hide ReadAll, Escape, Open, LooseSpace, Bites, Pending, QuoteOpen;
    if st.buf != "" {
      var out := st.out + [st.buf];
      assert Words(value) == out && out[|st.out|] == st.buf;
      assert forall i :: 0 <= i < |st.out| ==> out[i] == st.out[i];
    } else {
      NotLoose("");
    }
  }

  /** So splitting a value is final exactly when no backslash in it escapes another one, or
      white space outside quotes; without backslashes it always is. */
  lemma SplitIsFinal(value: string)
    ensures Words(WithSpaces(Words(value))) == Words(value) <==> !Bites(value)
    ensures '\\' !in value ==> Words(WithSpaces(Words(value))) == Words(value)
  {
    hide *;
    SplitAgain(Words(value));
    ProperWords(value);
    if '\\' !in value {
      PlainWords(value);
    }
  }

  /** With a backslash it need not be: a\ b is one word, a b, and two when split again. */
  lemma EscapedSpaceSplits()
    ensures Words("a\\ b") == ["a b"] && !Proper(Words("a\\ b"))
  {
    hide ReadAll, Escape, IsSpace, LooseSpace, Open;
    var a, ab, abs := "" + ['a'], "" + ['a'] + ['\\'], "" + ['a'] + ['\\'] + [' '];
    assert "a\\ b" == abs + ['b'];
    EmptyRead();
    Letter('a');
    Letter('b');
    ReadEscaped("", 'a');
    ReadEscaped(a, '\\');
    ReadEscaped(ab, ' ');
    ReadEscaped(abs, 'b');
    assert ReadAll(Escape(abs + ['b'])).buf == "a b";
    SpaceIsLoose();
    assert Words("a\\ b")[0] == "a b";
  }

  lemma Letter(c: char)
    requires 'a' <= c <= 'z'
    ensures !IsSpace(c)
  {
  }

  lemma SpaceIsLoose()
    ensures LooseSpace("a b")
  {
    var w := "a b";
    assert w[..1][..0] == "" && !Open("");
    assert IsSpace(w[1]) && !Open(w[..1]);
  }
}
