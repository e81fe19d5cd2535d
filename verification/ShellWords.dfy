/**
 The tokenizer of the fake shell (modules/fakeshell/syntax.go). Words are specified with the
 automaton of ShellInput, so the two hand-written scanners are tied to one view of quotes, escapes
 and comments.
 */
module ShellWords {
  import opened ShellInput

  const MAX_TOKENS: nat := 128
  const MAX_OPERATORS: nat := 64

  datatype Quote = Unquoted | SingleQuoted | DoubleQuoted | Escaped

  datatype Segment = Segment(text: string, quote: Quote)

  type Word = seq<Segment>

  datatype Reason =
    | UnexpectedSeparator | Background | Heredoc | ProcessSubstitution | Redirection | Descriptor
    | UnterminatedQuote | CommandSubstitution | Grouping | Tilde

  datatype Scanned = Scanned(word: Word, next: nat) | Unterminated

  /** Text of the same quoting is merged with the last segment. */
  function Append(w: Word, text: string, quote: Quote): (r: Word)
  {
    if w != [] && w[|w| - 1].quote == quote then w[|w| - 1 := Segment(w[|w| - 1].text + text, quote)]
    else w + [Segment(text, quote)]
  }

  predicate EndsWord(c: char)
  {
    IsShellSpace(c) || c == ';' || c == '\n' || IsOperatorStart(c)
  }

  /** What a character adds to the word, given the mode it is read in. */
  function Absorb(w: Word, m: Mode, c: char): (r: Word)
  {
    match m
    case Plain(_) =>
      if c == '\\' || c == '"' then w
      else if c == '\'' then Append(w, "", SingleQuoted)
      else Append(w, [c], Unquoted)
    case PlainEscape => Append(w, [c], Escaped)
    case Single => if c == '\'' then w else Append(w, [c], SingleQuoted)
    case Double => if c == '"' || c == '\\' then w else Append(w, [c], DoubleQuoted)
    case DoubleEscape => Append(w, [c], Escaped)
    case Comment => w
  }

  /** A word is read until the automaton, outside quotes and escapes, meets a character that ends words. */
  function WordFrom(input: string, i: nat, m: Mode, w: Word): (r: Scanned)
    requires i <= |input|
    ensures r.Scanned? ==> i <= r.next <= |input|
    decreases |input| - i
  {
    if i == |input| then
      match m
      case Plain(_) => Scanned(w, i)
      case PlainEscape => Scanned(Append(w, ['\\'], Escaped), i)
      case _ => Unterminated
    else if m.Plain? && EndsWord(input[i]) then Scanned(w, i)
    else WordFrom(input, i + 1, Step(m, input[i]), Absorb(w, m, input[i]))
  }

  // ---------------------------------------------------------------- scanSyntaxWord

  lemma {:induction false} AppendMerges(w: Word, a: string, b: string, quote: Quote)
    ensures Append(Append(w, a, quote), b, quote) == Append(w, a + b, quote)
  {
    var n := |w| - 1;
    if w != [] && w[n].quote == quote {
      assert w[n].text + a + b == w[n].text + (a + b);
    } else {
      assert (w + [Segment(a, quote)])[|w| := Segment(a + b, quote)] == w + [Segment(a + b, quote)];
    }
  }

  /** Only a leading # depends on whether a token starts. */
  lemma {:induction false} StartIrrelevant(input: string, i: nat, w: Word)
    requires i < |input| && input[i] != '#'
    ensures WordFrom(input, i, Plain(true), w) == WordFrom(input, i, Plain(false), w)
  {
  }

  lemma {:induction false} EscapeStep(input: string, i: nat, w: Word)
    requires i < |input| && input[i] == '\\'
    ensures WordFrom(input, i, Plain(false), w) ==
            if i + 1 < |input| then WordFrom(input, i + 2, Plain(false), Append(w, [input[i + 1]], Escaped))
            else Scanned(Append(w, ['\\'], Escaped), |input|)
  {
  }

  /** A run of single-quoted characters is absorbed as one piece of text. */
  lemma {:induction false} SingleQuotedRun(input: string, start: nat, k: nat, w: Word)
    requires start <= k <= |input| && forall j :: start <= j < k ==> input[j] != '\''
    ensures WordFrom(input, start, Single, Append(w, "", SingleQuoted)) ==
            WordFrom(input, k, Single, Append(w, input[start..k], SingleQuoted))
    decreases k
  {
    if k == start {
      assert input[start..k] == "";
    } else {
      SingleQuotedRun(input, start, k - 1, w);
      AppendMerges(w, input[start..k - 1], [input[k - 1]], SingleQuoted);
      assert input[start..k] == input[start..k - 1] + [input[k - 1]];
    }
  }

  /** bytes.IndexByte for the closing quote, or the end of the input. */
  method IndexQuote(input: string, start: nat) returns (k: nat)
    requires start <= |input|
    ensures start <= k <= |input| && (k < |input| ==> input[k] == '\'')
    ensures forall j :: start <= j < k ==> input[j] != '\''
  {
    k := start;
    while k < |input| && input[k] != '\''
      invariant start <= k <= |input|
      invariant forall j :: start <= j < k ==> input[j] != '\''
    {
      k := k + 1;
    }
  }

  /** The inner loop over a double-quoted part; k is its closing quote, or the end of the input. */
  method ScanDouble(input: string, start: nat, w: Word) returns (k: nat, r: Word)
    requires start <= |input|
    ensures start <= k <= |input|
    ensures k < |input| ==> WordFrom(input, start, Double, w) == WordFrom(input, k + 1, Plain(false), r)
    ensures k == |input| ==> WordFrom(input, start, Double, w) == Unterminated
  {
    k, r := start, w;
    while k < |input|
      invariant start <= k <= |input|
      invariant WordFrom(input, start, Double, w) == WordFrom(input, k, Double, r)
    {
      if input[k] == '"' {
        return;
      }
      if input[k] == '\\' && k + 1 < |input| {
        k := k + 1;
        r := Append(r, [input[k]], Escaped);
      } else {
        if input[k] == '\\' {
          assert WordFrom(input, k, Double, r) == Unterminated;
          return k + 1, r;
        }
        r := Append(r, [input[k]], DoubleQuoted);
      }
      k := k + 1;
    }
  }

  /** One round of the word loop: a quoted part, an escape, or a plain character; ok unless a quote stays open. */
  method ScanPiece(input: string, i: nat, w: Word) returns (ok: bool, k: nat, v: Word)
    requires i < |input| && !EndsWord(input[i])
    ensures ok ==> i < k <= |input| && WordFrom(input, i, Plain(false), w) == WordFrom(input, k, Plain(false), v)
    ensures !ok ==> WordFrom(input, i, Plain(false), w) == Unterminated
  {
    var c := input[i];
    if c == '\'' {
      k := IndexQuote(input, i + 1);
      SingleQuotedRun(input, i + 1, k, w);
      return k < |input|, k + 1, Append(w, input[i + 1..k], SingleQuoted);
    }
    if c == '"' {
      k, v := ScanDouble(input, i + 1, w);
      return k < |input|, k + 1, v;
    }
    if c == '\\' {
      EscapeStep(input, i, w);
      if i + 1 >= |input| {
        return true, i + 1, Append(w, [c], Escaped);
      }
      return true, i + 2, Append(w, [input[i + 1]], Escaped);
    }
    return true, i + 1, Append(w, [c], Unquoted);
  }

  method ScanSyntaxWord(input: string, start: nat) returns (r: Scanned)
    requires start < |input| && !EndsWord(input[start]) && input[start] != '#'
    ensures r == WordFrom(input, start, Plain(true), [])
  {
    StartIrrelevant(input, start, []);
    var w: Word := [];
    var i := start;
    while i < |input|
      invariant start <= i <= |input|
      invariant WordFrom(input, start, Plain(true), []) == WordFrom(input, i, Plain(false), w)
    {
      if EndsWord(input[i]) {
        return Scanned(w, i);
      }
      var ok, k, v := ScanPiece(input, i, w);
      if !ok {
        return Unterminated;
      }
      i, w := k, v;
    }
    return Scanned(w, |input|);
  }
}
