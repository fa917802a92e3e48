/** Text by lines and tabs, as the delivery scripts read it. */
module TextLines {
  /** The characters Python's `splitlines` breaks at; a carriage return takes a following newline with it. */
  predicate IsBreak(c: char) {
    c in {'\n', '\r', '\U{0B}', '\U{0C}', '\U{1C}', '\U{1D}', '\U{1E}', '\U{85}', '\U{2028}', '\U{2029}'}
  }

  function FirstBreak(s: string): (n: nat)
    ensures n <= |s| && (forall i :: 0 <= i < n ==> !IsBreak(s[i])) && (n < |s| ==> IsBreak(s[n]))
  {
    if s == [] || IsBreak(s[0]) then 0 else 1 + FirstBreak(s[1..])
  }

  function SplitLines(s: string): seq<string>
    decreases |s|
  {
    if s == [] then []
    else
      var n := FirstBreak(s);
      if n == |s| then [s]
      else [s[..n]] + SplitLines(s[if s[n] == '\r' && n + 1 < |s| && s[n + 1] == '\n' then n + 2 else n + 1..])
  }

  /** Line feed to form feed, the information separators, next line, and the line and paragraph separators. */
  lemma {:induction false} BreaksAre(c: char)
    ensures IsBreak(c) <==>
              0x0A <= c as int <= 0x0D || 0x1C <= c as int <= 0x1E || c as int in {0x85, 0x2028, 0x2029}
  {
  }

  ghost predicate IsLine(line: string) {
    forall i :: 0 <= i < |line| ==> !IsBreak(line[i])
  }

  lemma {:induction false} BreaksAfter(line: string, c: char, rest: string)
    requires IsLine(line) && IsBreak(c)
    ensures var s := line + [c] + rest;
            && FirstBreak(s) == |line| && s[|line|] == c && s[..|line|] == line && s[|line| + 1..] == rest
  {
    var s := line + [c] + rest;
    assert s[|line|] == c;
    assert forall i :: 0 <= i < |line| ==> s[i] == line[i];
  }

  /** A line ends at the first break, which is one character, or a carriage return and a newline. */
  lemma {:induction false} LinesAre(line: string, c: char, rest: string)
    requires IsLine(line) && IsBreak(c)
    ensures SplitLines("") == [] && (line != "" ==> SplitLines(line) == [line])
    ensures SplitLines(line + [c] + rest) ==
              [line] + SplitLines(if c == '\r' && rest != "" && rest[0] == '\n' then rest[1..] else rest)
  {
    BreaksAfter(line, c, rest);
    var s := line + [c] + rest;
    assert rest != "" ==> s[|line| + 1] == rest[0] && s[|line| + 2..] == rest[1..];
    assert line != "" ==> FirstBreak(line) == |line|;
  }

  lemma {:induction false} LineSplits(line: string, rest: string)
    requires IsLine(line)
    ensures SplitLines(line + "\n" + rest) == [line] + SplitLines(rest)
  {
    LinesAre(line, '\n', rest);
  }

  function FirstTab(s: string): (n: nat)
    ensures n <= |s| && (forall i :: 0 <= i < n ==> s[i] != '\t') && (n < |s| ==> s[n] == '\t')
  {
    if s == [] || s[0] == '\t' then 0 else 1 + FirstTab(s[1..])
  }
}
