/**
 The command separator scan of the fake shell (modules/fakeshell/input.go). A character automaton is
 the reference; the scanning loop of the source, with its look-ahead at backslashes and its inner
 loop over comments, is proved to find exactly the automaton's first boundary.
 */
module ShellInput {
  datatype Mode = Plain(tokenStart: bool) | PlainEscape | Single | Double | DoubleEscape | Comment

  const FORM_FEED: char := '\U{000C}'
  const VERTICAL_TAB: char := '\U{000B}'

  predicate IsShellSpace(c: char)
  {
    c == ' ' || c == '\t' || c == '\r' || c == FORM_FEED || c == VERTICAL_TAB
  }

  predicate IsOperatorStart(c: char)
  {
    c == '&' || c == '|' || c == '<' || c == '>'
  }

  /** Newline always ends a command; a semicolon does outside quotes, escapes and comments. */
  predicate Boundary(m: Mode, c: char)
  {
    c == '\n' || (m.Plain? && c == ';')
  }

  function Step(m: Mode, c: char): (r: Mode)
  {
    match m
    case Plain(start) =>
      if c == '\\' then PlainEscape
      else if c == '\'' then Single
      else if c == '"' then Double
      else if c == '#' then (if start then Comment else Plain(false))
      else Plain(IsShellSpace(c) || IsOperatorStart(c))
    case PlainEscape => Plain(false)
    case Single => if c == '\'' then Plain(false) else Single
    case Double => if c == '\\' then DoubleEscape else if c == '"' then Plain(false) else Double
    case DoubleEscape => Double
    case Comment => Comment
  }

  datatype Cut = NoCut | CutAt(index: nat)

  function ScanFrom(buf: string, i: nat, m: Mode): (r: Cut)
    requires i <= |buf|
    ensures r.CutAt? ==> i <= r.index < |buf|
    decreases |buf| - i
  {
    if i == |buf| then NoCut
    else if Boundary(m, buf[i]) then CutAt(i)
    else ScanFrom(buf, i + 1, Step(m, buf[i]))
  }

  /** The first command boundary in a buffer. */
  function Separator(buf: string): (r: Cut)
    ensures r.CutAt? ==> r.index < |buf|
  {
    ScanFrom(buf, 0, Plain(true))
  }

  /** The mode after a whole text, from the start of input. */
  function ModeAfter(text: string): (m: Mode)
  {
    if text == "" then Plain(true) else Step(ModeAfter(text[..|text| - 1]), text[|text| - 1])
  }

  lemma {:induction false} ModeStep(text: string, i: nat)
    requires i < |text|
    ensures ModeAfter(text[..i + 1]) == Step(ModeAfter(text[..i]), text[i])
  {
    assert text[..i + 1][..i] == text[..i];
  }

  // ---------------------------------------------------------------- the loop of the source

  method FindCommandSeparator(buf: string) returns (r: Cut)
    ensures r == Separator(buf)
  {
    var quote := '\0';
    var tokenStart := true;
    var i := 0;
    while i < |buf|
      invariant 0 <= i <= |buf| && quote in {'\0', '\'', '"'} && (quote == '\0' || !tokenStart)
      invariant Separator(buf) == ScanFrom(buf, i, ModeOf(quote, tokenStart))
    {
      var c := buf[i];
      if c == '\n' {
        return CutAt(i);
      }
      if quote == '\0' {
        if c == '\\' {
          if i + 1 < |buf| {
            if buf[i + 1] == '\n' {
              return CutAt(i + 1);
            }
            i := i + 1;
          }
          tokenStart := false;
        } else if c == '\'' || c == '"' {
          quote := c;
          tokenStart := false;
        } else if c == '#' {
          if tokenStart {
            r := FindNewline(buf, i + 1);
            return;
          }
        } else if c == ';' {
          return CutAt(i);
        } else {
          tokenStart := IsShellSpace(c) || IsOperatorStart(c);
        }
      } else if quote == '\'' {
        if c == '\'' {
          quote := '\0';
        }
      } else {
        if c == '\\' && i + 1 < |buf| {
          if buf[i + 1] == '\n' {
            return CutAt(i + 1);
          }
          i := i + 1;
        } else if c == '"' {
          quote := '\0';
        }
      }
      i := i + 1;
    }
    return NoCut;
  }

  function ModeOf(quote: char, tokenStart: bool): (m: Mode)
  {
    if quote == '\'' then Single else if quote == '"' then Double else Plain(tokenStart)
  }

  /** Inside a comment only a newline is a boundary. */
  method FindNewline(buf: string, start: nat) returns (r: Cut)
    requires start <= |buf|
    ensures r == ScanFrom(buf, start, Comment)
  {
    var j := start;
    while j < |buf|
      invariant start <= j <= |buf|
      invariant ScanFrom(buf, start, Comment) == ScanFrom(buf, j, Comment)
    {
      if buf[j] == '\n' {
        return CutAt(j);
      }
      j := j + 1;
    }
    return NoCut;
  }

  // ---------------------------------------------------------------- what the boundary is

  lemma {:induction false} ScanMeaning(buf: string, i: nat, k: nat)
    requires i <= k < |buf|
    ensures ScanFrom(buf, i, ModeAfter(buf[..i])) == CutAt(k) <==>
            Boundary(ModeAfter(buf[..k]), buf[k]) && forall j :: i <= j < k ==> !Boundary(ModeAfter(buf[..j]), buf[j])
    decreases |buf| - i
  {
    if !Boundary(ModeAfter(buf[..i]), buf[i]) {
      ModeStep(buf, i);
      if i < k {
        ScanMeaning(buf, i + 1, k);
      }
    }
  }

  /** The separator is the first position where the automaton meets a boundary. */
  lemma {:induction false} SeparatorIsFirst(buf: string, k: nat)
    requires k < |buf|
    ensures Separator(buf) == CutAt(k) <==>
            Boundary(ModeAfter(buf[..k]), buf[k]) && forall j :: 0 <= j < k ==> !Boundary(ModeAfter(buf[..j]), buf[j])
  {
    assert buf[..0] == "";
    ScanMeaning(buf, 0, k);
  }

  lemma {:induction false} NoCutFrom(buf: string, i: nat, k: nat)
    requires i <= k < |buf| && ScanFrom(buf, i, ModeAfter(buf[..i])) == NoCut
    ensures !Boundary(ModeAfter(buf[..k]), buf[k])
    decreases k - i
  {
    ModeStep(buf, i);
    if i < k {
      NoCutFrom(buf, i + 1, k);
    }
  }

  /** Without a separator there is no boundary anywhere. */
  lemma {:induction false} NoSeparator(buf: string, k: nat)
    requires Separator(buf) == NoCut && k < |buf|
    ensures !Boundary(ModeAfter(buf[..k]), buf[k])
  {
    assert buf[..0] == "";
    NoCutFrom(buf, 0, k);
  }

  lemma {:induction false} ScanStable(buf: string, more: string, i: nat, m: Mode)
    requires i <= |buf|
    ensures ScanFrom(buf, i, m).CutAt? ==> ScanFrom(buf + more, i, m) == ScanFrom(buf, i, m)
    ensures ScanFrom(buf, i, m) == NoCut ==>
              ScanFrom(buf + more, i, m) == NoCut || ScanFrom(buf + more, i, m).index >= |buf|
    decreases |buf| - i
  {
    if i < |buf| {
      ScanStable(buf, more, i + 1, Step(m, buf[i]));
    }
  }

  /**
   More input never moves a separator that was found, and one that was not found can only appear in
   the new input.
   */
  lemma {:induction false} SeparatorStable(buf: string, more: string)
    ensures Separator(buf).CutAt? ==> Separator(buf + more) == Separator(buf)
    ensures Separator(buf) == NoCut ==> Separator(buf + more) == NoCut || Separator(buf + more).index >= |buf|
  {
    ScanStable(buf, more, 0, Plain(true));
  }

  /** Cutting a command off and scanning what precedes the separator finds nothing. */
  lemma {:induction false} CutIsClean(buf: string)
    requires Separator(buf).CutAt?
    ensures Separator(buf[..Separator(buf).index]) == NoCut
  {
    var k := Separator(buf).index;
    assert buf == buf[..k] + buf[k..];
    SeparatorStable(buf[..k], buf[k..]);
  }
}
