/**
 tokenizeShellSegment of the fake shell (modules/fakeshell/syntax.go): its loop, and the proof that
 it agrees with the separator scan, so that a segment cut off by that scan never holds a stray
 separator.
 */
module ShellTokens {
  import opened ShellInput
  import opened ShellWords

  datatype Token = WordToken(word: Word) | And | Or | Pipe | Redirect(text: string)

  datatype Tokenized = Tokens(tokens: seq<Token>) | SyntaxError(reason: Reason) | LimitError

  predicate OnlyShellSpace(s: string)
  {
    forall i :: 0 <= i < |s| ==> IsShellSpace(s[i])
  }

  /** trimShellSegment: drop the separator a segment was cut off with. */
  function Trimmed(segment: string): (input: string)
  {
    var cut := Separator(segment);
    if cut.CutAt? && OnlyShellSpace(segment[cut.index + 1..]) then segment[..cut.index] else segment
  }

  predicate HasPrefixAt(input: string, i: nat, prefix: string)
  {
    i + |prefix| <= |input| && input[i..i + |prefix|] == prefix
  }

  predicate IsTokenBoundary(input: string, i: nat)
  {
    i >= |input| || EndsWord(input[i])
  }

  predicate IsDigit(c: char)
  {
    '0' <= c <= '9'
  }

  function AfterDigits(input: string, i: nat): (j: nat)
    requires i <= |input|
    ensures i <= j <= |input|
    decreases |input| - i
  {
    if i < |input| && IsDigit(input[i]) then AfterDigits(input, i + 1) else i
  }

  predicate Contains(s: string, part: string)
  {
    exists i :: 0 <= i <= |s| && HasPrefixAt(s, i, part)
  }

  predicate ContainsAny(s: string, chars: string)
  {
    exists i :: 0 <= i < |s| && s[i] in chars
  }

  datatype Validity = Valid | Invalid(reason: Reason)

  function SegmentValidity(s: Segment): (v: Validity)
    ensures v.Invalid? ==> v.reason != UnexpectedSeparator
  {
    if s.quote == SingleQuoted || s.quote == Escaped then Valid
    else if Contains(s.text, "$(") || '`' in s.text then Invalid(CommandSubstitution)
    else if Contains(s.text, "<(") || Contains(s.text, ">(") then Invalid(ProcessSubstitution)
    else if ContainsAny(s.text, "(){}") then Invalid(Grouping)
    else if '&' in s.text then Invalid(Background)
    else Valid
  }

  function SegmentsValidity(w: Word): (v: Validity)
    ensures v.Invalid? ==> v.reason != UnexpectedSeparator
  {
    if w == [] then Valid
    else if SegmentValidity(w[0]).Invalid? then SegmentValidity(w[0])
    else SegmentsValidity(w[1..])
  }

  /** The first non-empty segment must not be an unquoted tilde. */
  predicate TildeFirst(w: Word)
  {
    w != [] && if w[0].text == "" then TildeFirst(w[1..]) else w[0].quote == Unquoted && w[0].text[0] == '~'
  }

  /** validateSyntaxWord. */
  function WordValidity(w: Word): (v: Validity)
    ensures v.Invalid? ==> v.reason != UnexpectedSeparator
  {
    var v := SegmentsValidity(w);
    if v.Invalid? then v else if TildeFirst(w) then Invalid(Tilde) else Valid
  }

  // ---------------------------------------------------------------- one token

  datatype Action = Emit(token: Token, next: nat) | Fail(reason: Reason)

  function OperatorAt(input: string, i: nat): (a: Action)
    requires i < |input| && IsOperatorStart(input[i])
    ensures a.Emit? ==> i < a.next <= |input|
    ensures a.Fail? ==> a.reason != UnexpectedSeparator
  {
    match input[i]
    case '&' => if HasPrefixAt(input, i, "&&") then Emit(And, i + 2) else Fail(Background)
    case '|' => if HasPrefixAt(input, i, "||") then Emit(Or, i + 2) else Emit(Pipe, i + 1)
    case '<' =>
      if HasPrefixAt(input, i, "<<") then Fail(Heredoc)
      else if HasPrefixAt(input, i, "<(") then Fail(ProcessSubstitution)
      else Fail(Redirection)
    case _ =>
      if HasPrefixAt(input, i, ">(") then Fail(ProcessSubstitution)
      else if HasPrefixAt(input, i, ">>") then Fail(Redirection)
      else Emit(Redirect(">"), i + 1)
  }

  function WordAt(input: string, i: nat): (a: Action)
    requires i < |input| && !EndsWord(input[i])
    ensures a.Emit? ==> i < a.next <= |input|
    ensures a.Fail? ==> a.reason != UnexpectedSeparator
  {
    match WordFrom(input, i, Plain(true), [])
    case Unterminated => Fail(UnterminatedQuote)
    case Scanned(w, next) =>
      var v := WordValidity(w);
      if v.Invalid? then Fail(v.reason) else Emit(WordToken(w), next)
  }

  function ActionAt(input: string, i: nat): (a: Action)
    requires i < |input| && !IsShellSpace(input[i]) && input[i] !in "#;\n"
    ensures a.Emit? ==> i < a.next <= |input|
    ensures a.Fail? ==> a.reason != UnexpectedSeparator
  {
    if IsOperatorStart(input[i]) then OperatorAt(input, i)
    else if HasPrefixAt(input, i, "2>&1") && IsTokenBoundary(input, i + 4) then Emit(Redirect("2>&1"), i + 4)
    else if HasPrefixAt(input, i, "2>>") then Fail(Redirection)
    else if HasPrefixAt(input, i, "2>") then Emit(Redirect("2>"), i + 2)
    else
      var j := AfterDigits(input, i);
      if j > i && j < |input| && (input[j] == '>' || input[j] == '<') then Fail(Descriptor)
      else WordAt(input, i)
  }

  predicate IsOperator(t: Token)
  {
    t.And? || t.Or? || t.Pipe?
  }

  function TokenizeFrom(input: string, i: nat, tokens: seq<Token>, operators: nat): (r: Tokenized)
    requires i <= |input|
    decreases |input| - i
  {
    if i == |input| || input[i] == '#' then Tokens(tokens)
    else if IsShellSpace(input[i]) then TokenizeFrom(input, i + 1, tokens, operators)
    else if input[i] == ';' || input[i] == '\n' then
      if OnlyShellSpace(input[i + 1..]) then Tokens(tokens) else SyntaxError(UnexpectedSeparator)
    else
      match ActionAt(input, i)
      case Fail(reason) => SyntaxError(reason)
      case Emit(t, next) =>
        var ops := operators + if IsOperator(t) then 1 else 0;
        if |tokens| + 1 > MAX_TOKENS || ops > MAX_OPERATORS then LimitError
        else TokenizeFrom(input, next, tokens + [t], ops)
  }

  function Tokenize(segment: string): (r: Tokenized)
  {
    TokenizeFrom(Trimmed(segment), 0, [], 0)
  }

  /** The token loop. */
  method TokenizeShellSegment(segment: string) returns (r: Tokenized)
    ensures r == Tokenize(segment)
    ensures r.Tokens? ==> |r.tokens| <= MAX_TOKENS
  {
    var cut := FindCommandSeparator(segment);
    var input := if cut.CutAt? && OnlyShellSpace(segment[cut.index + 1..]) then segment[..cut.index] else segment;
    var tokens: seq<Token> := [];
    var i, operators := 0, 0;
    while i < |input|
      invariant 0 <= i <= |input| && |tokens| <= MAX_TOKENS && operators <= MAX_OPERATORS
      invariant Tokenize(segment) == TokenizeFrom(input, i, tokens, operators)
    {
      var c := input[i];
      if IsShellSpace(c) {
        i := i + 1;
      } else if c == '#' {
        break;
      } else if c == ';' || c == '\n' {
        if OnlyShellSpace(input[i + 1..]) {
          break;
        }
        return SyntaxError(UnexpectedSeparator);
      } else {
        var a := NextToken(input, i);
        if a.Fail? {
          return SyntaxError(a.reason);
        }
        tokens := tokens + [a.token];
        if |tokens| > MAX_TOKENS {
          return LimitError;
        }
        if IsOperator(a.token) {
          operators := operators + 1;
          if operators > MAX_OPERATORS {
            return LimitError;
          }
        }
        i := a.next;
      }
    }
    return Tokens(tokens);
  }

  /** One token, with the word scanned by its own loop. */
  method NextToken(input: string, i: nat) returns (a: Action)
    requires i < |input| && !IsShellSpace(input[i]) && input[i] !in "#;\n"
    ensures a == ActionAt(input, i)
  {
    if IsOperatorStart(input[i]) {
      return OperatorAt(input, i);
    }
    if HasPrefixAt(input, i, "2>&1") && IsTokenBoundary(input, i + 4) {
      return Emit(Redirect("2>&1"), i + 4);
    }
    if HasPrefixAt(input, i, "2>>") {
      return Fail(Redirection);
    }
    if HasPrefixAt(input, i, "2>") {
      return Emit(Redirect("2>"), i + 2);
    }
    if IsDigit(input[i]) {
      var j := i + 1;
      while j < |input| && IsDigit(input[j])
        invariant i < j <= |input| && AfterDigits(input, i) == AfterDigits(input, j)
      {
        j := j + 1;
      }
      if j < |input| && (input[j] == '>' || input[j] == '<') {
        return Fail(Descriptor);
      }
    }
    var s := ScanSyntaxWord(input, i);
    if s.Unterminated? {
      return Fail(UnterminatedQuote);
    }
    var v := WordValidity(s.word);
    return if v.Invalid? then Fail(v.reason) else Emit(WordToken(s.word), s.next);
  }

  // ---------------------------------------------------------------- the two scanners agree

  /** At a position where the tokenizer looks for a token, the separator scan is outside quotes and comments. */
  ghost predicate At(input: string, i: nat)
    requires i <= |input|
  {
    i == |input| || ModeAfter(input[..i]) == Plain(true) || (ModeAfter(input[..i]) == Plain(false) && EndsWord(input[i]))
  }

  lemma {:induction false} WordMode(input: string, i: nat, w: Word)
    requires i <= |input|
    ensures var s := WordFrom(input, i, ModeAfter(input[..i]), w);
            s.Scanned? && s.next < |input| ==> ModeAfter(input[..s.next]).Plain? && EndsWord(input[s.next])
    decreases |input| - i
  {
    var m := ModeAfter(input[..i]);
    if i < |input| && !(m.Plain? && EndsWord(input[i])) {
      ModeStep(input, i);
      WordMode(input, i + 1, Absorb(w, m, input[i]));
    }
  }

  lemma {:induction false} OperatorMode(input: string, i: nat)
    requires i < |input| && IsOperatorStart(input[i]) && ModeAfter(input[..i]).Plain? && OperatorAt(input, i).Emit?
    ensures At(input, OperatorAt(input, i).next)
  {
    ModeStep(input, i);
    if OperatorAt(input, i).next == i + 2 {
      assert input[i..i + 2][1] == input[i + 1];
      ModeStep(input, i + 1);
    }
  }

  lemma {:induction false} StderrMode(input: string, i: nat)
    requires i <= |input| && ModeAfter(input[..i]).Plain? && HasPrefixAt(input, i, "2>")
    ensures ModeAfter(input[..i + 2]) == Plain(true)
  {
    assert input[i..i + 2][0] == input[i] && input[i..i + 2][1] == input[i + 1];
    ModeStep(input, i);
    ModeStep(input, i + 1);
  }

  lemma {:induction false} DuplicateMode(input: string, i: nat)
    requires i <= |input| && ModeAfter(input[..i]).Plain? && HasPrefixAt(input, i, "2>&1")
    ensures ModeAfter(input[..i + 4]) == Plain(false)
  {
    var p := input[i..i + 4];
    assert p[0] == input[i] && p[1] == input[i + 1] && p[2] == input[i + 2] && p[3] == input[i + 3];
    assert HasPrefixAt(input, i, "2>");
    StderrMode(input, i);
    ModeStep(input, i + 2);
    ModeStep(input, i + 3);
  }

  lemma {:induction false} ActionMode(input: string, i: nat)
    requires i < |input| && At(input, i) && !IsShellSpace(input[i]) && input[i] !in "#;\n"
    requires ActionAt(input, i).Emit?
    ensures At(input, ActionAt(input, i).next)
  {
    if IsOperatorStart(input[i]) {
      OperatorMode(input, i);
    } else if HasPrefixAt(input, i, "2>&1") && IsTokenBoundary(input, i + 4) {
      DuplicateMode(input, i);
    } else if HasPrefixAt(input, i, "2>") {
      StderrMode(input, i);
    } else {
      WordMode(input, i, []);
      PlainAt(input, ActionAt(input, i).next);
    }
  }

  lemma {:induction false} PlainAt(input: string, i: nat)
    requires i <= |input| && (i < |input| ==> ModeAfter(input[..i]).Plain? && EndsWord(input[i]))
    ensures At(input, i)
  {
  }

  /** Without a boundary in the input, the tokenizer never meets a separator where it expects a token. */
  lemma {:induction false} NoStraySeparator(input: string, i: nat, tokens: seq<Token>, operators: nat)
    requires Separator(input) == NoCut && i <= |input| && At(input, i)
    ensures TokenizeFrom(input, i, tokens, operators) != SyntaxError(UnexpectedSeparator)
    decreases |input| - i
  {
    if i < |input| && input[i] != '#' {
      NoSeparator(input, i);
      if IsShellSpace(input[i]) {
        ModeStep(input, i);
        NoStraySeparator(input, i + 1, tokens, operators);
      } else {
        var a := ActionAt(input, i);
        if a.Emit? {
          ActionMode(input, i);
          NoStraySeparator(input, a.next, tokens + [a.token], operators + if IsOperator(a.token) then 1 else 0);
        }
      }
    }
  }

  /** The positions at which the tokenizer's loop looks for a token. */
  function Visits(input: string, i: nat): (v: seq<nat>)
    requires i <= |input|
    decreases |input| - i
  {
    if i == |input| then []
    else if IsShellSpace(input[i]) then [i] + Visits(input, i + 1)
    else if input[i] in "#;\n" || ActionAt(input, i).Fail? then [i]
    else [i] + Visits(input, ActionAt(input, i).next)
  }

  /**
   The two scanners have one view of the input: wherever the tokenizer looks for a token the
   separator scan is outside quotes, escapes and comments, a comment starts for the one exactly when
   it starts for the other, and a word starts where the separator scan expects a token to start.
   */
  lemma {:induction false} ScannersAgree(input: string, i: nat, p: nat)
    requires Separator(input) == NoCut && i <= |input| && At(input, i) && p in Visits(input, i)
    ensures p < |input| && ModeAfter(input[..p]).Plain? && input[p] !in ";\n"
    ensures input[p] == '#' ==> Step(ModeAfter(input[..p]), input[p]) == Comment
    ensures !EndsWord(input[p]) ==> ModeAfter(input[..p]) == Plain(true)
    decreases |input| - i
  {
    NoSeparator(input, i);
    if p != i {
      if IsShellSpace(input[i]) {
        ModeStep(input, i);
        ScannersAgree(input, i + 1, p);
      } else {
        ActionMode(input, i);
        ScannersAgree(input, ActionAt(input, i).next, p);
      }
    }
  }

  /** At q the separator scan starts a comment. */
  predicate CommentStarts(input: string, q: nat)
    requires q < |input|
  {
    input[q] == '#' && Step(ModeAfter(input[..q]), input[q]) == Comment && ModeAfter(input[..q]) != Comment
  }

  lemma {:induction false} CommentStays(input: string, i: nat, q: nat)
    requires i <= q <= |input| && ModeAfter(input[..i]) == Comment
    ensures ModeAfter(input[..q]) == Comment
    decreases q - i
  {
    if i < q {
      ModeStep(input, i);
      CommentStays(input, i + 1, q);
    }
  }

  /** A word ends before the place where a comment starts. */
  lemma {:induction false} WordBeforeComment(input: string, i: nat, q: nat, w: Word)
    requires i < q < |input| && CommentStarts(input, q)
    ensures var s := WordFrom(input, i, ModeAfter(input[..i]), w); s.Scanned? ==> s.next <= q
    decreases q - i
  {
    var m := ModeAfter(input[..i]);
    ModeStep(input, i);
    if !(m.Plain? && EndsWord(input[i])) && i + 1 < q {
      WordBeforeComment(input, i + 1, q, Absorb(w, m, input[i]));
    }
  }

  lemma {:induction false} ActionBeforeComment(input: string, i: nat, q: nat)
    requires i < q < |input| && At(input, i) && !IsShellSpace(input[i]) && input[i] !in "#;\n"
    requires CommentStarts(input, q) && ActionAt(input, i).Emit?
    ensures ActionAt(input, i).next <= q
  {
    if IsOperatorStart(input[i]) {
      assert OperatorAt(input, i).next == i + 2 ==> input[i..i + 2][1] == input[i + 1];
    } else if HasPrefixAt(input, i, "2>&1") && IsTokenBoundary(input, i + 4) {
      var p := input[i..i + 4];
      assert p[0] == input[i] && p[1] == input[i + 1] && p[2] == input[i + 2] && p[3] == input[i + 3];
    } else if HasPrefixAt(input, i, "2>") {
      assert input[i..i + 2][1] == input[i + 1];
    } else {
      WordBeforeComment(input, i, q, []);
    }
  }

  /** The tokenizer gives up at a visited position before q. */
  ghost predicate FailsBefore(input: string, i: nat, q: nat)
    requires i <= |input|
  {
    exists p :: p in Visits(input, i) && p < q && Stuck(input, p)
  }

  predicate Stuck(input: string, p: nat)
  {
    p < |input| && !IsShellSpace(input[p]) && input[p] !in "#;\n" && ActionAt(input, p).Fail?
  }

  /**
   And where the separator scan starts a comment, the tokenizer that gets that far looks for a token
   there and stops; it does not get that far only if it reports an error before.
   */
  lemma {:induction false} CommentsAgree(input: string, i: nat, q: nat)
    requires Separator(input) == NoCut && i <= q < |input| && At(input, i) && CommentStarts(input, q)
    ensures q in Visits(input, i) || FailsBefore(input, i, q)
    ensures forall tokens, operators :: TokenizeFrom(input, q, tokens, operators) == Tokens(tokens)
    decreases |input| - i
  {
    NoSeparator(input, i);
    if i < q {
      if input[i] == '#' {
        ModeStep(input, i);
        CommentStays(input, i + 1, q);
      } else if IsShellSpace(input[i]) {
        ModeStep(input, i);
        CommentsAgree(input, i + 1, q);
        VisitsLater(input, i, i + 1, q);
      } else if ActionAt(input, i).Fail? {
        assert i in Visits(input, i) && Stuck(input, i);
      } else {
        ActionMode(input, i);
        ActionBeforeComment(input, i, q);
        CommentsAgree(input, ActionAt(input, i).next, q);
        VisitsLater(input, i, ActionAt(input, i).next, q);
      }
    }
  }

  lemma {:induction false} VisitsLater(input: string, i: nat, j: nat, q: nat)
    requires i < j <= |input| && Visits(input, i) == [i] + Visits(input, j)
    requires q in Visits(input, j) || FailsBefore(input, j, q)
    ensures q in Visits(input, i) || FailsBefore(input, i, q)
  {
    if q !in Visits(input, j) {
      var p :| p in Visits(input, j) && p < q && Stuck(input, p);
      assert p in Visits(input, i);
    }
  }

  /** The segment the shell cuts off the front of its buffer: up to the separator, or all of it at the end of input. */
  function Segment(buf: string): (s: string)
  {
    var cut := Separator(buf);
    if cut.CutAt? then buf[..cut.index + 1] else buf
  }

  lemma {:induction false} TrimmedSegment(buf: string)
    ensures Separator(Trimmed(Segment(buf))) == NoCut
    ensures Trimmed(Segment(buf)) == if Separator(buf).CutAt? then buf[..Separator(buf).index] else buf
  {
    if Separator(buf).CutAt? {
      var k := Separator(buf).index;
      var s := buf[..k + 1];
      assert buf == s + buf[k + 1..];
      SeparatorStable(s, buf[k + 1..]);
      assert s[k + 1..] == "" && s[..k] == buf[..k];
      CutIsClean(buf);
    }
  }

  /** No segment the shell cuts off makes the tokenizer report an unexpected separator. */
  lemma {:induction false} CutSegmentsTokenize(buf: string)
    ensures Tokenize(Segment(buf)) != SyntaxError(UnexpectedSeparator)
  {
    TrimmedSegment(buf);
    var input := Trimmed(Segment(buf));
    assert input[..0] == "";
    NoStraySeparator(input, 0, [], 0);
  }
}
