/** The scenario selector of the end-to-end runner: its parser and the summary it prints. */
module Scenarios {
  import opened Base

  /** A scenario, named by its number. */
  type Scenario = n: nat | 1 <= n <= 20 witness 1

  datatype SelectionError = StartAfterEnd | OutOfRange | UnknownSelector | EmptySelection

  // -------------------------------------------------------------------- tokens

  /** Unicode white space, as `char::is_whitespace` has it. */
  predicate IsWhitespace(c: char) {
    || '\U{9}' <= c <= '\U{D}' || c == ' ' || c == '\U{85}' || c == '\U{A0}' || c == '\U{1680}'
    || '\U{2000}' <= c <= '\U{200A}' || c == '\U{2028}' || c == '\U{2029}' || c == '\U{202F}' || c == '\U{205F}'
    || c == '\U{3000}'
  }

  /** The code points of the Unicode property. */
  lemma {:induction false} WhitespaceIs(c: char)
    ensures IsWhitespace(c) <==>
              || 9 <= c as int <= 13 || c as int in {32, 133, 160, 5760}
              || 8192 <= c as int <= 8202 || c as int in {8232, 8233, 8239, 8287, 12288}
  {
  }

  predicate IsSeparator(c: char) {
    c == ',' || IsWhitespace(c)
  }

  function TrimStart(s: string): (t: string)
    ensures |t| <= |s|
  {
    if s != [] && IsWhitespace(s[0]) then TrimStart(s[1..]) else s
  }

  function TrimEnd(s: string): (t: string)
    ensures |t| <= |s|
  {
    if s != [] && IsWhitespace(s[|s| - 1]) then TrimEnd(s[..|s| - 1]) else s
  }

  function Trim(s: string): string {
    TrimEnd(TrimStart(s))
  }

  ghost predicate Blank(s: string) {
    forall i :: 0 <= i < |s| ==> IsWhitespace(s[i])
  }

  lemma {:induction false} TrimStartIs(s: string) returns (a: string)
    ensures Blank(a) && s == a + TrimStart(s) && (TrimStart(s) != "" ==> !IsWhitespace(TrimStart(s)[0]))
  {
    if s != [] && IsWhitespace(s[0]) {
      var rest := TrimStartIs(s[1..]);
      a := [s[0]] + rest;
      assert s == [s[0]] + s[1..];
    } else {
      a := "";
    }
  }

  lemma {:induction false} TrimEndIs(s: string) returns (b: string)
    ensures Blank(b) && s == TrimEnd(s) + b && (TrimEnd(s) != "" ==> !IsWhitespace(TrimEnd(s)[|TrimEnd(s)| - 1]))
  {
    if s != [] && IsWhitespace(s[|s| - 1]) {
      var rest := TrimEndIs(s[..|s| - 1]);
      b := rest + [s[|s| - 1]];
      assert s == s[..|s| - 1] + [s[|s| - 1]];
    } else {
      b := "";
    }
  }

  /** Blanks go at both ends and nowhere else. */
  lemma {:induction false} TrimIs(s: string) returns (a: string, b: string)
    ensures Blank(a) && Blank(b) && s == a + Trim(s) + b
    ensures var t := Trim(s); t != "" ==> !IsWhitespace(t[0]) && !IsWhitespace(t[|t| - 1])
  {
    a := TrimStartIs(s);
    b := TrimEndIs(TrimStart(s));
    var t := Trim(s);
    assert TrimStart(s) == t + b;
    assert t != "" ==> t[0] == TrimStart(s)[0];
  }

  function Flush(piece: string): seq<string> {
    if piece == [] then [] else [piece]
  }

  /** The pieces between separators that are not empty, with `piece` already read. */
  function Split(piece: string, s: string): seq<string>
    decreases |s|
  {
    if s == [] then Flush(piece)
    else if IsSeparator(s[0]) then Flush(piece) + Split("", s[1..])
    else Split(piece + [s[0]], s[1..])
  }

  function Tokens(s: string): seq<string> {
    Split("", s)
  }

  ghost predicate IsWord(d: string) {
    d != [] && forall i :: 0 <= i < |d| ==> !IsSeparator(d[i])
  }

  /** What holds no separator is one token. */
  lemma {:induction false} WordIsOneToken(d: string)
    requires IsWord(d)
    ensures Tokens("") == [] && Tokens(d) == [d]
  {
    WordStaysWhole("", d);
    assert "" + d == d;
  }

  lemma {:induction false} WordStaysWhole(piece: string, d: string)
    requires forall i :: 0 <= i < |d| ==> !IsSeparator(d[i])
    ensures Split(piece, d) == Flush(piece + d)
    decreases |d|
  {
    if d == [] {
      assert piece + d == piece;
    } else {
      assert piece + d == piece + [d[0]] + d[1..];
      WordStaysWhole(piece + [d[0]], d[1..]);
    }
  }

  /** Joining with a separator concatenates the tokens. */
  lemma {:induction false} TokensJoin(a: string, c: char, b: string)
    requires IsSeparator(c)
    ensures Tokens(a + [c] + b) == Tokens(a) + Tokens(b)
  {
    SplitJoin("", a, c, b);
  }

  lemma {:induction false} SplitJoin(piece: string, a: string, c: char, b: string)
    requires IsSeparator(c)
    ensures Split(piece, a + [c] + b) == Split(piece, a) + Split("", b)
    decreases |a|
  {
    if a == [] {
      assert (a + [c] + b)[1..] == b;
    } else {
      assert (a + [c] + b)[1..] == a[1..] + [c] + b;
      SplitJoin(if IsSeparator(a[0]) then "" else piece + [a[0]], a[1..], c, b);
    }
  }

  lemma {:induction false} TokensTrimStart(s: string)
    ensures Tokens(TrimStart(s)) == Tokens(s)
  {
    if s != [] && IsWhitespace(s[0]) {
      TokensTrimStart(s[1..]);
      TokensJoin([], s[0], s[1..]);
      assert [] + [s[0]] + s[1..] == s;
    }
  }

  lemma {:induction false} TokensTrimEnd(s: string)
    ensures Tokens(TrimEnd(s)) == Tokens(s)
  {
    if s != [] && IsWhitespace(s[|s| - 1]) {
      var front := s[..|s| - 1];
      TokensTrimEnd(front);
      TokensJoin(front, s[|s| - 1], []);
      assert s == front + [s[|s| - 1]] + [];
    }
  }

  lemma {:induction false} TokensTrim(s: string)
    ensures Tokens(Trim(s)) == Tokens(s)
  {
    TokensTrimStart(s);
    TokensTrimEnd(TrimStart(s));
  }

  // ------------------------------------------------------------- single tokens

  function Lower(s: string): (t: string)
    ensures |t| == |s|
  {
    seq(|s|, i requires 0 <= i < |s| => if 'A' <= s[i] <= 'Z' then ((s[i] as int) + 32) as char else s[i])
  }

  const UPPER := "ABCDEFGHIJKLMNOPQRSTUVWXYZ"
  const LOWER := "abcdefghijklmnopqrstuvwxyz"

  /** Each capital becomes the letter at its place in the alphabet; everything else stays. */
  lemma {:induction false} LowerIs(s: string, i: nat)
    requires i < |s|
    ensures s[i] !in UPPER ==> Lower(s)[i] == s[i]
    ensures forall k :: 0 <= k < 26 && s[i] == UPPER[k] ==> Lower(s)[i] == LOWER[k]
  {
    assert forall k :: 0 <= k < 26 ==> UPPER[k] as int == 65 + k && LOWER[k] as int == 97 + k;
    if 'A' <= s[i] <= 'Z' {
      assert UPPER[s[i] as int - 65] == s[i];
    }
  }

  /** Named groups of scenarios. */
  type Groups = map<string, set<Scenario>>

  predicate IsDigit(c: char) {
    '0' <= c <= '9'
  }

  /** The value of a non-empty string of digits. */
  function Digits(s: string): Option<nat> {
    if s == [] || !IsDigit(s[|s| - 1]) then None
    else
      var last := (s[|s| - 1] as int) - ('0' as int);
      if |s| == 1 then Some(last)
      else
        match Digits(s[..|s| - 1])
        case None => None
        case Some(n) => Some(10 * n + last)
  }

  /** Rust's `parse::<u8>`: digits with an optional plus sign, at most 255. */
  function ParseU8(s: string): Option<nat> {
    match Digits(if s != [] && s[0] == '+' then s[1..] else s)
    case None => None
    case Some(n) => if n <= 255 then Some(n) else None
  }

  lemma {:induction false} NumeralsRead(s: string)
    ensures Digits(s).Some? <==> IsNumeral(s)
  {
    if s != [] && |s| > 1 {
      NumeralsRead(s[..|s| - 1]);
    }
  }

  /** A number in decimal digits, without leading zeros. */
  function Rendered(n: nat): string {
    if n < 10 then [Digit(n)] else Rendered(n / 10) + [Digit(n % 10)]
  }

  /** Digits read as the number they are written for, and leading zeros do not matter. */
  lemma {:induction false} DigitsRead(n: nat)
    ensures IsNumeral(Rendered(n)) && Digits(Rendered(n)) == Some(n)
  {
    if n >= 10 {
      DigitsRead(n / 10);
      var d := Rendered(n);
      assert d[..|d| - 1] == Rendered(n / 10);
    }
  }

  lemma {:induction false} LeadingZero(s: string)
    requires IsNumeral(s)
    ensures Digits("0" + s) == Digits(s)
  {
    var z := "0" + s;
    assert z[|z| - 1] == s[|s| - 1];
    if |s| > 1 {
      LeadingZero(s[..|s| - 1]);
      assert z[..|z| - 1] == "0" + s[..|s| - 1];
    } else {
      assert z[..1] == "0" && Digits("0") == Some(0);
    }
  }

  lemma {:induction false} ParseU8Is(s: string, n: nat)
    ensures ParseU8(s) == Some(n) <==>
              n <= 255 && (Digits(s) == Some(n) || exists t :: s == "+" + t && Digits(t) == Some(n))
  {
    NumeralsRead(s);
    if s != [] && s[0] == '+' {
      assert s == "+" + s[1..] && !IsDigit(s[0]);
      assert forall t :: s == "+" + t ==> t == s[1..];
    }
  }

  /** `split_once('-')`. */
  function SplitOnce(s: string): Option<(string, string)> {
    if s == [] then None
    else if s[0] == '-' then Some(([], s[1..]))
    else
      match SplitOnce(s[1..])
      case None => None
      case Some((a, b)) => Some(([s[0]] + a, b))
  }

  /** Before and behind the first dash. */
  lemma {:induction false} SplitOnceIs(s: string, a: string, b: string)
    ensures SplitOnce(s) == Some((a, b)) <==> s == a + "-" + b && '-' !in a
    ensures SplitOnce(s).None? <==> '-' !in s
  {
    if s != [] && s[0] != '-' {
      SplitOnceIs(s[1..], if a != [] then a[1..] else [], b);
      if a != [] {
        assert a == [a[0]] + a[1..] && a + "-" + b == [a[0]] + (a[1..] + "-" + b);
        assert s == [s[0]] + s[1..];
      } else {
        assert (a + "-" + b)[0] == '-';
      }
    } else if s != [] {
      assert s == [] + "-" + s[1..];
      assert a != [] ==> (a + "-" + b)[0] == a[0];
      assert a == [] ==> (a + "-" + b)[1..] == b;
    }
  }

  function FromNumber(n: nat): Result<Scenario, SelectionError> {
    if 1 <= n <= 20 then Ok(n) else Err(OutOfRange)
  }

  function StripPrefix(s: string): string {
    if |s| >= 9 && s[..9] == "scenario-" then s[9..]
    else if s != [] && s[0] == 's' then s[1..]
    else s
  }

  /** `scenario-` goes, or else an `s`. */
  lemma {:induction false} StripPrefixIs(s: string, rest: string)
    ensures s == "scenario-" + rest ==> StripPrefix(s) == rest
    ensures s == "s" + rest && (forall x :: s != "scenario-" + x) ==> StripPrefix(s) == rest
    ensures (forall x :: s != "s" + x) ==> StripPrefix(s) == s
  {
    if |s| >= 9 && s[..9] == "scenario-" {
      assert s == "scenario-" + s[9..];
    }
    if s != [] && s[0] == 's' {
      assert s == "s" + s[1..];
    }
  }

  /** Both ends of a token that reads as a numeric range. */
  function Range(s: string): Option<(nat, nat)> {
    match SplitOnce(s)
    case None => None
    case Some((a, b)) =>
      match (ParseU8(a), ParseU8(b))
      case (Some(m), Some(n)) => Some((m, n))
      case _ => None
  }

  function Interval(m: Scenario, n: Scenario): (r: set<Scenario>)
    requires m <= n
    ensures forall k :: k in r <==> m <= k <= n
  {
    if m == n then {m} else Interval(m, n - 1) + {n}
  }

  /** What one token selects. */
  function Selects(groups: Groups, token: string): Result<set<Scenario>, SelectionError> {
    var s := Lower(Trim(token));
    if s in groups then Ok(groups[s])
    else
      match Range(s)
      case Some((m, n)) =>
        if m > n then Err(StartAfterEnd)
        else if 1 <= m && n <= 20 then Ok(Interval(m, n))
        else Err(OutOfRange)
      case None =>
        match ParseU8(StripPrefix(s))
        case None => Err(UnknownSelector)
        case Some(n) => if 1 <= n <= 20 then Ok({n}) else Err(OutOfRange)
  }

  /** Two numbers with a dash between them. */
  ghost predicate IsRange(s: string, m: nat, n: nat) {
    exists a, b :: s == a + "-" + b && '-' !in a && ParseU8(a) == Some(m) && ParseU8(b) == Some(n)
  }

  lemma {:induction false} RangeIs(s: string, m: nat, n: nat)
    ensures Range(s) == Some((m, n)) <==> IsRange(s, m, n)
    ensures Range(s).None? <==> forall x: nat, y: nat :: !IsRange(s, x, y)
  {
    if SplitOnce(s).Some? {
      var (a, b) := SplitOnce(s).value;
      SplitOnceIs(s, a, b);
      if Range(s).Some? {
        var (x, y) := Range(s).value;
        assert IsRange(s, x, y);
      }
    }
    forall x: nat, y: nat | IsRange(s, x, y) ensures Range(s) == Some((x, y)) {
      var a, b :| s == a + "-" + b && '-' !in a && ParseU8(a) == Some(x) && ParseU8(b) == Some(y);
      SplitOnceIs(s, a, b);
    }
  }

  /** What a token says: a group, a range from a number to one no lower, or a number, all within 1 to 20. */
  ghost predicate Says(groups: Groups, s: string, selection: set<Scenario>) {
    if s in groups then selection == groups[s]
    else if exists m: nat, n: nat :: IsRange(s, m, n) then
      exists m: nat, n: nat :: IsRange(s, m, n) && 1 <= m <= n <= 20 && forall k :: k in selection <==> m <= k <= n
    else exists k: Scenario :: ParseU8(StripPrefix(s)) == Some(k) && selection == {k}
  }

  lemma {:induction false} SelectsIs(groups: Groups, token: string, selection: set<Scenario>)
    ensures Selects(groups, token) == Ok(selection) <==> Says(groups, Lower(Trim(token)), selection)
  {
    var s := Lower(Trim(token));
    if Range(s).Some? {
      var (m, n) := Range(s).value;
      RangeIs(s, m, n);
      forall x: nat, y: nat | IsRange(s, x, y) ensures x == m && y == n { RangeIs(s, x, y); }
      if 1 <= m <= n <= 20 && forall k :: k in selection <==> m <= k <= n {
        assert selection == Interval(m, n);
      }
    } else {
      RangeIs(s, 0, 0);
    }
  }

  /** Why a token is refused. */
  lemma {:induction false} RefusedIs(groups: Groups, token: string)
    ensures var s, r := Lower(Trim(token)), Selects(groups, token);
            && (r == Err(StartAfterEnd) <==> s !in groups && exists m: nat, n: nat :: IsRange(s, m, n) && m > n)
            && (r == Err(UnknownSelector) <==>
                  s !in groups && (forall m: nat, n: nat :: !IsRange(s, m, n)) && ParseU8(StripPrefix(s)) == None)
            && r != Err(EmptySelection)
  {
    var s := Lower(Trim(token));
    if Range(s).Some? {
      var (m, n) := Range(s).value;
      RangeIs(s, m, n);
      forall x: nat, y: nat | IsRange(s, x, y) ensures x == m && y == n { RangeIs(s, x, y); }
    } else {
      RangeIs(s, 0, 0);
    }
  }

  /** `add_scenario_token`: adds what the token selects, a range one number at a time. */
  method AddToken(groups: Groups, token: string, selected: set<Scenario>)
    returns (r: Result<set<Scenario>, SelectionError>)
    ensures r.Ok? <==> Selects(groups, token).Ok?
    ensures r.Ok? ==> r.value == selected + Selects(groups, token).value
    ensures r.Err? ==> r.error == Selects(groups, token).error
  {
    var s := Lower(Trim(token));
    if s in groups {
      return Ok(selected + groups[s]);
    }
    var range := Range(s);
    if range.Some? {
      var (m, n) := range.value;
      if m > n {
        return Err(StartAfterEnd);
      }
      var all := selected;
      for number := m to n + 1
        invariant m < number ==> 1 <= m && number <= 21 && all == selected + Interval(m, number - 1)
        invariant m == number ==> all == selected
      {
        var scenario := FromNumber(number);
        if scenario.Err? {
          return Err(scenario.error);
        }
        all := all + {scenario.value};
      }
      return Ok(all);
    }
    var number := ParseU8(StripPrefix(s));
    if number.None? {
      return Err(UnknownSelector);
    }
    var scenario := FromNumber(number.value);
    if scenario.Err? {
      return Err(scenario.error);
    }
    return Ok(selected + {scenario.value});
  }

  // ------------------------------------------------------------ whole selectors

  /** Every group selects something, and no group is named like a number. */
  ghost predicate Sensible(groups: Groups) {
    forall name :: name in groups ==> groups[name] != {} && name != [] && !IsDigit(name[0])
  }

  lemma {:induction false} TokenSelectsSomething(groups: Groups, token: string)
    requires Sensible(groups) && Selects(groups, token).Ok?
    ensures Selects(groups, token).value != {}
  {
  }

  type Selector = string -> Result<set<Scenario>, SelectionError>

  function SelectorOf(groups: Groups): Selector {
    (token: string) => Selects(groups, token)
  }

  ghost predicate AllSelect(select: Selector, tokens: seq<string>) {
    forall i :: 0 <= i < |tokens| ==> select(tokens[i]).Ok?
  }

  ghost function Union(select: Selector, tokens: seq<string>): set<Scenario>
    requires AllSelect(select, tokens)
  {
    if tokens == [] then {} else Union(select, tokens[..|tokens| - 1]) + select(tokens[|tokens| - 1]).value
  }

  lemma {:induction false} UnionConcat(select: Selector, a: seq<string>, b: seq<string>)
    requires AllSelect(select, a) && AllSelect(select, b)
    ensures AllSelect(select, a + b) && Union(select, a + b) == Union(select, a) + Union(select, b)
    decreases |b|
  {
    if b == [] {
      assert a + b == a;
    } else {
      var front := b[..|b| - 1];
      UnionConcat(select, a, front);
      assert (a + b)[..|a + b| - 1] == a + front;
    }
  }

  lemma {:induction false} UnionSelectsSomething(groups: Groups, tokens: seq<string>)
    requires Sensible(groups) && tokens != [] && AllSelect(SelectorOf(groups), tokens)
    ensures Union(SelectorOf(groups), tokens) != {}
  {
    TokenSelectsSomething(groups, tokens[|tokens| - 1]);
  }

  /** The text that is parsed: the given one, or `compose` when there is none or it is blank. */
  function Effective(raw: Option<string>): string {
    if raw.None? || Trim(raw.value) == "" then "compose" else Trim(raw.value)
  }

  /** A selector is accepted when it has tokens and every one of them selects something. */
  ghost predicate Accepts(groups: Groups, text: string) {
    Tokens(text) != [] && AllSelect(SelectorOf(groups), Tokens(text))
  }

  ghost function Meaning(groups: Groups, text: string): set<Scenario>
    requires Accepts(groups, text)
  {
    Union(SelectorOf(groups), Tokens(text))
  }

  lemma {:induction false} UnionStep(select: Selector, tokens: seq<string>, i: nat)
    requires i < |tokens| && AllSelect(select, tokens[..i])
    ensures AllSelect(select, tokens[..i + 1]) <==> select(tokens[i]).Ok?
    ensures select(tokens[i]).Ok? ==>
              Union(select, tokens[..i + 1]) == Union(select, tokens[..i]) + select(tokens[i]).value
  {
    assert tokens[..i + 1][..i] == tokens[..i];
    assert tokens[..i + 1][i] == tokens[i];
  }

  ghost predicate FirstRefused(select: Selector, tokens: seq<string>, i: int, error: SelectionError) {
    0 <= i < |tokens| && AllSelect(select, tokens[..i]) && select(tokens[i]) == Err(error)
  }

  /** The token loop. */
  method AddTokens(groups: Groups, ghost select: Selector, tokens: seq<string>)
    returns (r: Result<set<Scenario>, SelectionError>)
    requires forall token :: select(token) == Selects(groups, token)
    ensures r.Ok? <==> AllSelect(select, tokens)
    ensures r.Ok? ==> r.value == Union(select, tokens)
    ensures r.Err? ==> exists i :: FirstRefused(select, tokens, i, r.error)
  {
    var selected: set<Scenario> := {};
    for i := 0 to |tokens|
      invariant AllSelect(select, tokens[..i]) && selected == Union(select, tokens[..i])
    {
      UnionStep(select, tokens, i);
      var added := AddToken(groups, tokens[i], selected);
      assert added.Ok? <==> select(tokens[i]).Ok?;
      if added.Err? {
        assert FirstRefused(select, tokens, i, added.error);
        return Err(added.error);
      }
      selected := added.value;
    }
    assert tokens[..|tokens|] == tokens;
    r := Ok(selected);
  }

  /** `parse_scenario_selection`. */
  method ParseSelection(groups: Groups, raw: Option<string>) returns (r: Result<set<Scenario>, SelectionError>)
    requires Sensible(groups)
    ensures r.Ok? <==> Accepts(groups, Effective(raw))
    ensures r.Ok? ==> r.value == Meaning(groups, Effective(raw))
    ensures r.Err? ==>
              if Tokens(Effective(raw)) == [] then r.error == EmptySelection
              else exists i :: FirstRefused(SelectorOf(groups), Tokens(Effective(raw)), i, r.error)
  {
    var tokens := Tokens(Effective(raw));
    r := AddTokens(groups, SelectorOf(groups), tokens);
    if tokens != [] && r.Ok? { UnionSelectsSomething(groups, tokens); }
    if r.Ok? && r.value == {} {
      return Err(EmptySelection);
    }
  }

  /** Selectors compose: joined by a comma they select the union. */
  lemma {:induction false} CommaIsUnion(groups: Groups, a: string, b: string)
    requires Trim(a) != "" && Trim(b) != ""
    requires Accepts(groups, Effective(Some(a))) && Accepts(groups, Effective(Some(b)))
    ensures Accepts(groups, Effective(Some(a + "," + b)))
    ensures Meaning(groups, Effective(Some(a + "," + b))) ==
              Meaning(groups, Effective(Some(a))) + Meaning(groups, Effective(Some(b)))
  {
    var joined := a + "," + b;
    TokensTrim(a);
    TokensTrim(b);
    TokensTrim(joined);
    TokensJoin(a, ',', b);
    assert Tokens(Trim(joined)) != [] ==> Trim(joined) != "";
    UnionConcat(SelectorOf(groups), Tokens(a), Tokens(b));
  }

  // ------------------------------------------------------------------- printing

  function Digit(n: nat): char
    requires n < 10
  {
    (n + '0' as int) as char
  }

  function Decimal(n: Scenario): string {
    if n < 10 then [Digit(n)] else [Digit(n / 10), Digit(n % 10)]
  }

  /** The selected numbers from `from` on, in order. */
  function Numbers(s: set<Scenario>, from: nat): seq<string>
    decreases 21 - from
  {
    if from > 20 then []
    else if from >= 1 && from in s then [Decimal(from)] + Numbers(s, from + 1)
    else Numbers(s, from + 1)
  }

  function Join(parts: seq<string>): string {
    if parts == [] then [] else if |parts| == 1 then parts[0] else parts[0] + "," + Join(parts[1..])
  }

  /** `scenario_selection_summary`. */
  function Summary(s: set<Scenario>): string {
    Join(Numbers(s, 1))
  }

  ghost predicate IsNumeral(d: string) {
    d != [] && forall i :: 0 <= i < |d| ==> IsDigit(d[i])
  }

  lemma {:induction false} DecimalReads(n: Scenario)
    ensures IsNumeral(Decimal(n)) && Digits(Decimal(n)) == Some(n)
  {
  }

  /** A printed number selects its scenario. */
  lemma {:induction false} DecimalSelects(groups: Groups, n: Scenario)
    requires Sensible(groups)
    ensures Selects(groups, Decimal(n)) == Ok({n})
  {
    var d := Decimal(n);
    DecimalReads(n);
    assert TrimStart(d) == d && TrimEnd(d) == d;
    assert Lower(d) == d;
    SplitOnceIs(d, "", "");
    assert StripPrefix(d) == d && ParseU8(d) == Some(n);
  }

  lemma {:induction false} TokensOfJoin(parts: seq<string>)
    requires forall i :: 0 <= i < |parts| ==> IsNumeral(parts[i])
    ensures Tokens(Join(parts)) == parts
  {
    if |parts| == 1 {
      WordIsOneToken(parts[0]);
    } else if parts != [] {
      TokensOfJoin(parts[1..]);
      WordIsOneToken(parts[0]);
      TokensJoin(parts[0], ',', Join(parts[1..]));
      assert parts == [parts[0]] + parts[1..];
    }
  }

  lemma {:induction false} NumbersAreNumerals(s: set<Scenario>, from: nat)
    requires 1 <= from
    ensures forall i :: 0 <= i < |Numbers(s, from)| ==> IsNumeral(Numbers(s, from)[i])
    decreases 21 - from
  {
    if from <= 20 {
      NumbersAreNumerals(s, from + 1);
      DecimalReads(from);
    }
  }

  ghost predicate ReadsNumbers(select: Selector) {
    forall n: Scenario :: select(Decimal(n)) == Ok({n})
  }

  lemma {:induction false} UnionPrepend(select: Selector, token: string, tokens: seq<string>)
    requires select(token).Ok? && AllSelect(select, tokens)
    ensures AllSelect(select, [token] + tokens)
    ensures Union(select, [token] + tokens) == select(token).value + Union(select, tokens)
  {
    var one := [token];
    assert one[..0] == [];
    assert Union(select, one) == Union(select, []) + select(token).value;
    UnionConcat(select, one, tokens);
  }

  lemma {:induction false} NumbersSelect(select: Selector, s: set<Scenario>, from: nat)
    requires ReadsNumbers(select) && 1 <= from
    ensures AllSelect(select, Numbers(s, from))
    ensures Union(select, Numbers(s, from)) == NoLessThan(s, from)
    decreases 21 - from
  {
    if from <= 20 {
      NumbersSelect(select, s, from + 1);
      NoLessThanStep(s, from);
      if from in s {
        UnionPrepend(select, Decimal(from), Numbers(s, from + 1));
      }
    }
  }

  ghost function NoLessThan(s: set<Scenario>, from: nat): set<Scenario> {
    set k | k in s && from <= k
  }

  lemma {:induction false} NoLessThanStep(s: set<Scenario>, from: Scenario)
    ensures from in s ==> NoLessThan(s, from) == {from} + NoLessThan(s, from + 1)
    ensures from !in s ==> NoLessThan(s, from) == NoLessThan(s, from + 1)
  {
  }

  /** Parsing what is printed gives back the selection. */
  lemma {:induction false} ParsePrinted(groups: Groups, s: set<Scenario>)
    requires Sensible(groups) && s != {}
    ensures Accepts(groups, Effective(Some(Summary(s))))
    ensures Meaning(groups, Effective(Some(Summary(s)))) == s
  {
    var select := SelectorOf(groups);
    assert ReadsNumbers(select) by {
      forall n: Scenario ensures select(Decimal(n)) == Ok({n}) { DecimalSelects(groups, n); }
    }
    NumbersSelect(select, s, 1);
    NumbersAreNumerals(s, 1);
    TokensOfJoin(Numbers(s, 1));
    TokensTrim(Summary(s));
    assert NoLessThan(s, 1) == s;
    assert Union(select, []) == {};
    assert Tokens(Trim(Summary(s))) != [] ==> Trim(Summary(s)) != "";
  }

  /** Parse, print, parse: stable on every accepted selector. */
  lemma {:induction false} PrintingIsStable(groups: Groups, raw: Option<string>)
    requires Sensible(groups) && Accepts(groups, Effective(raw))
    ensures var s := Meaning(groups, Effective(raw));
            Accepts(groups, Effective(Some(Summary(s)))) && Meaning(groups, Effective(Some(Summary(s)))) == s
  {
    UnionSelectsSomething(groups, Tokens(Effective(raw)));
    ParsePrinted(groups, Meaning(groups, Effective(raw)));
  }

  // ------------------------------------------------------------ the named groups

  const ALL: set<Scenario> := {1, 2, 3, 4, 5, 6, 7, 8, 9, 17, 18, 19, 20}
  const CLUSTER_CONNECTIVITY: set<Scenario> := {1, 2, 3, 4}
  const RUNTIME_STUB: set<Scenario> := {5}
  const STRUCTURED_OUTPUT: set<Scenario> := {6, 7, 8, 9}
  const PATTERN_SCENARIOS: set<Scenario> := {17, 18}
  const CHILDREN: set<Scenario> := {19}
  const PROGRESS: set<Scenario> := {20}

  const SUITES: Groups := map[
    "compose" := ALL, "all" := ALL, "cluster-connectivity" := CLUSTER_CONNECTIVITY,
    "runtime-stub" := RUNTIME_STUB, "structured-output" := STRUCTURED_OUTPUT]

  const MODELS: Groups := map[
    "vllm-real" := {10}, "vllm-real-multi-agent" := {10}, "council-vllm" := {10},
    "ceremony" := {11}, "ceremony-diagram" := {11}, "meeting-ceremony" := {11},
    "ceremony-vllm" := {12}, "meeting-ceremony-vllm" := {12}, "gemma-ceremony" := {12}]

  const MEETINGS: Groups := map[
    "daily-standup" := {13}, "daily" := {13}, "standup" := {13},
    "technical-debate" := {14}, "debate" := {14}, "tech-debate" := {14},
    "sprint-planning" := {15}, "sprint-plan" := {15}, "planning" := {15},
    "speaker-talk-qa" := {16}, "talk-qa" := {16}, "speaker-qa" := {16}]

  const PATTERNS: Groups := map[
    "patterns" := PATTERN_SCENARIOS, "pattern-composition" := PATTERN_SCENARIOS,
    "ceremony-patterns" := PATTERN_SCENARIOS,
    "concurrent-review" := {17},
    "incident-review" := {18}, "incident_review" := {18},
    "children" := CHILDREN, "durable-children" := CHILDREN,
    "progress" := PROGRESS, "ceremony-progress" := PROGRESS]

  const GROUPS: Groups := SUITES + MODELS + MEETINGS + PATTERNS

  /** A name is in the table when it is in one of its parts. */
  lemma {:induction false} GroupNamesAre(name: string)
    ensures name in GROUPS <==> name in SUITES || name in MODELS || name in MEETINGS || name in PATTERNS
  {
  }

  lemma {:induction false} SensibleUnion(a: Groups, b: Groups)
    requires Sensible(a) && Sensible(b)
    ensures Sensible(a + b)
  {
  }

  lemma {:induction false} SuitesAreSensible()
    ensures Sensible(SUITES)
  {
  }

  lemma {:induction false} ModelsAreSensible()
    ensures Sensible(MODELS)
  {
  }

  lemma {:induction false} MeetingsAreSensible()
    ensures Sensible(MEETINGS)
  {
  }

  lemma {:induction false} PatternsAreSensible()
    ensures Sensible(PATTERNS)
  {
  }

  /** The default suite is made of the others; it leaves out what needs a model or a meeting, and only that. */
  lemma {:induction false} SuitesAre()
    ensures ALL == CLUSTER_CONNECTIVITY + RUNTIME_STUB + STRUCTURED_OUTPUT + PATTERN_SCENARIOS + CHILDREN + PROGRESS
    ensures forall n: Scenario :: n in ALL <==> !(10 <= n <= 16)
  {
  }

  lemma {:induction false} NameSelects(groups: Groups, name: string)
    requires IsWord(name) && name in groups && forall i :: 0 <= i < |name| ==> name[i] !in UPPER
    ensures Tokens(name) == [name] && Selects(groups, name) == Ok(groups[name])
    ensures Accepts(groups, name) && Meaning(groups, name) == groups[name]
  {
    WordIsOneToken(name);
    assert TrimStart(name) == name && TrimEnd(name) == name;
    forall i | 0 <= i < |name| ensures Lower(name)[i] == name[i] { LowerIs(name, i); }
    assert Lower(name) == name;
    var select := SelectorOf(groups);
    assert [name][..0] == [] && Union(select, []) == {};
    assert Union(select, [name]) == Union(select, []) + select(name).value;
  }

  lemma {:induction false} ComposeIsAWord()
    ensures IsWord("compose") && forall i :: 0 <= i < |"compose"| ==> "compose"[i] !in UPPER
  {
  }

  /** Nothing, or blanks, select the `compose` suite. */
  lemma {:induction false} DefaultIs(groups: Groups, raw: Option<string>)
    requires raw == None || Trim(raw.value) == ""
    requires "compose" in groups
    ensures Accepts(groups, Effective(raw)) && Meaning(groups, Effective(raw)) == groups["compose"]
  {
    ComposeIsAWord();
    NameSelects(groups, "compose");
  }

  lemma {:induction false} FirstTableAnswers(a: Groups, b: Groups, c: Groups, d: Groups, name: string)
    requires name in a && name !in b && name !in c && name !in d
    ensures name in a + b + c + d && (a + b + c + d)[name] == a[name]
  {
  }

  lemma {:induction false} ComposeInSuites()
    ensures "compose" in SUITES && SUITES["compose"] == ALL
  {
  }

  lemma {:induction false} ComposeIsNoModel()
    ensures "compose" !in MODELS
  {
  }

  lemma {:induction false} ComposeIsNoMeeting()
    ensures "compose" !in MEETINGS
  {
  }

  lemma {:induction false} ComposeIsNoPattern()
    ensures "compose" !in PATTERNS
  {
  }

  /** In the source's table that is everything that needs neither a model nor a meeting. */
  lemma {:induction false} ComposeIs()
    ensures "compose" in GROUPS && GROUPS["compose"] == ALL
  {
    ComposeInSuites();
    ComposeIsNoModel();
    ComposeIsNoMeeting();
    ComposeIsNoPattern();
    FirstTableAnswers(SUITES, MODELS, MEETINGS, PATTERNS, "compose");
  }

  /** The laws above hold of the source's own group table. */
  lemma {:induction false} GroupsAreSensible()
    ensures Sensible(GROUPS)
  {
    SuitesAreSensible();
    ModelsAreSensible();
    MeetingsAreSensible();
    PatternsAreSensible();
    SensibleUnion(SUITES, MODELS);
    SensibleUnion(SUITES + MODELS, MEETINGS);
    SensibleUnion(SUITES + MODELS + MEETINGS, PATTERNS);
  }
}
