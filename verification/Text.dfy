/** The string operations that reading a configuration file takes. */
module Text {
  /** What str.strip removes. */
  predicate IsSpace(c: char) {
    || '\t' <= c <= '\r' || '\U{001C}' <= c <= ' ' || c in ['\U{0085}', '\U{00A0}', '\U{1680}']
    || '\U{2000}' <= c <= '\U{200A}' || c in ['\U{2028}', '\U{2029}', '\U{202F}', '\U{205F}', '\U{3000}']
  }

  predicate At(s: string, i: nat, t: string) {
    i + |t| <= |s| && s[i..i + |t|] == t
  }

  predicate StartsWith(s: string, t: string) {
    At(s, 0, t)
  }

  /** The first place of c in s, or the length of s. */
  function IndexOf(s: string, c: char): (i: nat)
    ensures i <= |s| && c !in s[..i] && (i < |s| ==> s[i] == c)
  {
    if s == "" then 0 else if s[0] == c then 0
    else
      var i := 1 + IndexOf(s[1..], c);
      assert s[..i] == [s[0]] + s[1..][..i - 1];
      i
  }

  /** The last place of c in s, or -1. */
  function LastIndexOf(s: string, c: char): (i: int)
    ensures -1 <= i < |s| && (i >= 0 ==> s[i] == c)
    ensures forall j :: i < j < |s| ==> s[j] != c
  {
    if s == "" then -1 else if s[|s| - 1] == c then |s| - 1
    else LastIndexOf(s[..|s| - 1], c)
  }

  function TrimEnd(s: string): (r: string)
    ensures r == "" || !IsSpace(r[|r| - 1])
  {
    if s != "" && IsSpace(s[|s| - 1]) then TrimEnd(s[..|s| - 1]) else s
  }

  function TrimStart(s: string): string {
    if s != "" && IsSpace(s[0]) then TrimStart(s[1..]) else s
  }

  function Strip(s: string): string {
    TrimStart(TrimEnd(s))
  }

  predicate IsNewline(c: char) {
    c == '\n' || c == '\r'
  }

  predicate OneLine(s: string) {
    forall i :: 0 <= i < |s| ==> !IsNewline(s[i])
  }

  function LineEnd(s: string): (n: nat)
    ensures n <= |s| && OneLine(s[..n]) && (n < |s| ==> IsNewline(s[n]))
  {
    if s == "" then 0 else if IsNewline(s[0]) then 0
    else
      var n := 1 + LineEnd(s[1..]);
      assert s[..n] == [s[0]] + s[1..][..n - 1];
      n
  }

  function Lines(s: string): seq<string>
    decreases |s|
  {
    if s == "" then []
    else
      var n := LineEnd(s);
      if n == |s| then [s] else [s[..n]] + Lines(s[n + 1..])
  }

  /*** Where things are ***/

  lemma InTake(s: string, i: int, n: int)
    ensures 0 <= i < n <= |s| ==> s[i] in s[..n]
  {
    if 0 <= i < n <= |s| {
      assert s[..n][i] == s[i];
    }
  }

  lemma InLine(s: string, i: int, n: int)
    ensures 0 <= i < n <= |s| && OneLine(s[..n]) ==> !IsNewline(s[i])
  {
    if 0 <= i < n <= |s| {
      assert s[..n][i] == s[i];
    }
  }

  lemma IndexIs(s: string, c: char, i: nat)
    requires i <= |s| && c !in s[..i] && (i < |s| ==> s[i] == c)
    ensures IndexOf(s, c) == i
  {
    var j := IndexOf(s, c);
    InTake(s, j, i);
    InTake(s, i, j);
  }

  lemma LastIndexIs(s: string, c: char, i: nat)
    requires i < |s| && s[i] == c && forall j :: i < j < |s| ==> s[j] != c
    ensures LastIndexOf(s, c) == i
  {
    var j := LastIndexOf(s, c);
  }

  lemma LineEndIs(s: string, n: nat)
    requires n < |s| && OneLine(s[..n]) && IsNewline(s[n])
    ensures LineEnd(s) == n
  {
    var m := LineEnd(s);
    InLine(s, m, n);
    InLine(s, n, m);
  }

  /** The lines of a text are its first line and the lines of the rest. */
  lemma FirstLine(line: string, rest: string)
    requires OneLine(line)
    ensures Lines(line + "\n" + rest) == [line] + Lines(rest)
  {
    var s := line + "\n" + rest;
    assert s[..|line|] == line && s[|line| + 1..] == rest && s[|line|] == '\n';
    LineEndIs(s, |line|);
  }

  lemma FirstLineAt(s: string, n: nat)
    requires n < |s| && OneLine(s[..n]) && IsNewline(s[n])
    ensures Lines(s) == [s[..n]] + Lines(s[n + 1..])
  {
    LineEndIs(s, n);
  }

  lemma LineEndOf(s: string)
    ensures var n := LineEnd(s); (n < |s| && IsNewline(s[n]) && OneLine(s[..n])) || (OneLine(s) && n == |s|)
  {
    if LineEnd(s) == |s| {
      assert s[..|s|] == s;
    }
  }

  /** Whole lines are lines whatever follows them. */
  lemma {:induction false} LinesAdd(s: string, rest: string)
    ensures Lines(s + "\n" + rest) == Lines(s + "\n") + Lines(rest)
    decreases |s|
  {
    hide Lines, OneLine;
    var n := LineEnd(s);
    LineEndOf(s);
    if n == |s| {
      FirstLine(s, rest);
      FirstLine(s, "");
      NoLines();
      assert s + "\n" + "" == s + "\n";
    } else {
      var t := s[n + 1..];
      LinesAdd(t, rest);
      assert (s + "\n" + rest)[..n] == s[..n] && (s + "\n" + rest)[n + 1..] == t + "\n" + rest;
      assert (s + "\n")[..n] == s[..n] && (s + "\n")[n + 1..] == t + "\n";
      FirstLineAt(s + "\n" + rest, n);
      FirstLineAt(s + "\n", n);
    }
  }

  lemma NoLines()
    ensures Lines("") == []
  {
  }

  /** The first of the lines of a text. */
  lemma FirstOf(s: string)
    ensures Lines(s + "\n") != [] && Lines(s + "\n")[0] == s[..LineEnd(s)] && OneLine(s[..LineEnd(s)])
  {
    hide Lines, OneLine;
    var n := LineEnd(s);
    LineEndOf(s);
    if n == |s| {
      FirstLine(s, "");
      assert s + "\n" + "" == s + "\n" && s[..n] == s;
    } else {
      assert (s + "\n")[..n] == s[..n];
      FirstLineAt(s + "\n", n);
    }
  }

  lemma StripIs(s: string)
    requires s != "" && !IsSpace(s[0]) && !IsSpace(s[|s| - 1])
    ensures Strip(s) == s && TrimEnd(s) == s
  {
  }

  lemma TrimEndIs(s: string)
    requires s != "" && !IsSpace(s[|s| - 1])
    ensures TrimEnd(s + " ") == s
  {
    var t := s + " ";
    assert t[|t| - 1] == ' ' && t[..|t| - 1] == s;
    assert TrimEnd(t) == TrimEnd(s);
  }

  lemma OneLineAdd(s: string, t: string)
    ensures OneLine(s + t) <==> OneLine(s) && OneLine(t)
  {
    assert forall i :: 0 <= i < |s| ==> (s + t)[i] == s[i];
    assert forall i :: 0 <= i < |t| ==> (s + t)[|s| + i] == t[i];
  }

  lemma AtShift(s: string, t: string, n: nat, u: string)
    ensures At(s + t, |s| + n, u) <==> At(t, n, u)
  {
    if |s| + n + |u| <= |s + t| {
      assert (s + t)[|s| + n..|s| + n + |u|] == t[n..n + |u|];
    }
  }
}
