/**
 parseShellLine of the fake shell (modules/fakeshell/syntax.go): tokens into pipelines joined by
 && and ||, pipelines into commands joined by |, commands into assignments, words and redirections.
 The loops are proved against functions on the remaining tokens, and those against the token sequence
 itself, read position by position.
 */
module ShellParse {
  import opened ShellWords
  import opened ShellTokens
  import Redirection
  import ShellLoop

  const MAX_REDIRECTIONS: nat := 8

  datatype Command = Command(assignments: seq<string>, words: seq<Word>, redirects: seq<Redirection.Redirect>)

  /** Commands joined by "|". */
  datatype Pipeline = Pipeline(parts: seq<Command>)

  /** Pipelines joined by the operators between them. */
  datatype Line = Line(pipelines: seq<Pipeline>, operators: seq<Token>)

  datatype Result<T> = Ok(value: T) | Err(limit: bool)

  // ---------------------------------------------------------------- one command

  /** The words and redirections up to the next operator, and what follows. */
  datatype Collected = Collected(words: seq<Word>, redirects: seq<Redirection.Redirect>, rest: seq<Token>)

  function Collect(rest: seq<Token>, words: seq<Word>, redirects: seq<Redirection.Redirect>): (r: Result<Collected>)
    ensures r.Ok? ==> |r.value.rest| <= |rest|
    decreases |rest|
  {
    if rest == [] || IsOperator(rest[0]) then Ok(Collected(words, redirects, rest))
    else if rest[0].Redirect? then
      if |redirects| >= MAX_REDIRECTIONS then Err(true)
      else
        var p := Redirection.ParseRedirect(rest, 0);
        if p.SyntaxError? then Err(false) else Collect(rest[p.next..], words, redirects + [p.redirect])
    else Collect(rest[1..], words + [rest[0].word], redirects)
  }

  predicate Letter(c: char)
  {
    'A' <= c <= 'Z' || 'a' <= c <= 'z' || c == '_'
  }

  /** The position of the first '=', or the length. */
  function EqualsAt(s: string): (i: nat)
    ensures i <= |s| && (i < |s| ==> s[i] == '=') && '=' !in s[..i]
  {
    if s == "" || s[0] == '=' then 0 else 1 + EqualsAt(s[1..])
  }

  predicate IsEnvAssignment(text: string)
  {
    var eq := EqualsAt(text);
    0 < eq < |text| && Letter(text[0]) && forall i :: 0 < i < eq ==> Letter(text[i]) || IsDigit(text[i])
  }

  /** An assignment must be unquoted throughout and free of expansion characters in its value. */
  predicate LiteralAssignment(w: Word)
  {
    var text := Redirection.TextOf(w);
    && (forall i :: 0 <= i < |w| ==> w[i].quote == Unquoted)
    && EqualsAt(text) < |text|
    && !ContainsAny(text[EqualsAt(text) + 1..], "$*?~")
  }

  function Build(assignments: seq<string>, words: seq<Word>, redirects: seq<Redirection.Redirect>): (r: Result<Command>)
    decreases |words|
  {
    if words != [] && IsEnvAssignment(Redirection.TextOf(words[0])) then
      if !LiteralAssignment(words[0]) then Err(false)
      else Build(assignments + [Redirection.TextOf(words[0])], words[1..], redirects)
    else if (words == [] || Redirection.TextOf(words[0]) == "") && assignments == [] && redirects != [] then Err(false)
    else Ok(Command(assignments, words, redirects))
  }

  function ParseCommand(rest: seq<Token>): (r: Result<(Command, seq<Token>)>)
    ensures r.Ok? ==> |r.value.1| <= |rest|
  {
    var c := Collect(rest, [], []);
    if c.Err? then Err(c.limit)
    else
      var b := Build([], c.value.words, c.value.redirects);
      if b.Err? then Err(b.limit) else Ok((b.value, c.value.rest))
  }

  // ---------------------------------------------------------------- pipelines and lines

  function ParsePipeline(rest: seq<Token>, parts: seq<Command>): (r: Result<(Pipeline, seq<Token>)>)
    ensures r.Ok? ==> |r.value.1| <= |rest|
    decreases |rest|
  {
    if rest == [] || IsOperator(rest[0]) then Err(false)
    else
      var c := ParseCommand(rest);
      if c.Err? then Err(c.limit)
      else
        var (command, more) := c.value;
        if more == [] || !more[0].Pipe? then Ok((Pipeline(parts + [command]), more))
        else ParsePipeline(more[1..], parts + [command])
  }

  function ParseLine(rest: seq<Token>, line: Line): (r: Result<Line>)
    decreases |rest|
  {
    var p := ParsePipeline(rest, []);
    if p.Err? then Err(p.limit)
    else
      var (pipeline, more) := p.value;
      var next := Line(line.pipelines + [pipeline], line.operators);
      if more == [] then Ok(next)
      else if |more| == 1 then Err(false)
      else ParseLine(more[1..], next.(operators := line.operators + [more[0]]))
  }

  function Parse(tokens: seq<Token>): (r: Result<Line>)
  {
    if tokens == [] then Ok(Line([], [])) else ParseLine(tokens, Line([], []))
  }

  /** What the read loop needs to know about a segment. */
  function StatusOf(segment: string): (s: ShellLoop.Status)
  {
    match Tokenize(segment)
    case LimitError => ShellLoop.OverLimit
    case SyntaxError(_) => ShellLoop.BadSyntax
    case Tokens(tokens) =>
      match Parse(tokens)
      case Ok(_) => ShellLoop.Parses
      case Err(limit) => if limit then ShellLoop.OverLimit else ShellLoop.BadSyntax
  }

  // ---------------------------------------------------------------- the loops of the source

  method ParseSimpleCommandTokens(tokens: seq<Token>, start: nat) returns (r: Result<Command>, next: nat)
    requires start <= |tokens|
    ensures start <= next <= |tokens|
    ensures match ParseCommand(tokens[start..])
            case Err(limit) => r == Err(limit)
            case Ok((command, more)) => r == Ok(command) && more == tokens[next..]
  {
    var words: seq<Word>, redirects: seq<Redirection.Redirect> := [], [];
    next := start;
    while next < |tokens| && !IsOperator(tokens[next])
      invariant start <= next <= |tokens|
      invariant Collect(tokens[start..], [], []) == Collect(tokens[next..], words, redirects)
    {
      var rest := tokens[next..];
      if tokens[next].Redirect? {
        if |redirects| >= MAX_REDIRECTIONS {
          return Err(true), next;
        }
        var p := Redirection.ParseRedirect(rest, 0);
        if p.SyntaxError? {
          return Err(false), next;
        }
        assert rest[p.next..] == tokens[next + p.next..];
        redirects, next := redirects + [p.redirect], next + p.next;
      } else {
        assert rest[1..] == tokens[next + 1..];
        words, next := words + [tokens[next].word], next + 1;
      }
    }
    var command := BuildCommand(words, redirects);
    return command, next;
  }

  method BuildCommand(all: seq<Word>, redirects: seq<Redirection.Redirect>) returns (r: Result<Command>)
    ensures r == Build([], all, redirects)
  {
    var assignments: seq<string>, words := [], all;
    while words != [] && IsEnvAssignment(Redirection.TextOf(words[0]))
      invariant Build([], all, redirects) == Build(assignments, words, redirects)
      decreases |words|
    {
      if !LiteralAssignment(words[0]) {
        return Err(false);
      }
      assignments, words := assignments + [Redirection.TextOf(words[0])], words[1..];
    }
    if (words == [] || Redirection.TextOf(words[0]) == "") && assignments == [] && redirects != [] {
      return Err(false);
    }
    return Ok(Command(assignments, words, redirects));
  }

  method ParsePipelineTokens(tokens: seq<Token>, start: nat) returns (r: Result<Pipeline>, next: nat)
    requires start <= |tokens|
    ensures start <= next <= |tokens|
    ensures match ParsePipeline(tokens[start..], [])
            case Err(limit) => r == Err(limit)
            case Ok((pipeline, more)) => r == Ok(pipeline) && more == tokens[next..]
  {
    var parts: seq<Command> := [];
    next := start;
    while true
      invariant start <= next <= |tokens|
      invariant ParsePipeline(tokens[start..], []) == ParsePipeline(tokens[next..], parts)
      decreases |tokens| - next
    {
      if next >= |tokens| || IsOperator(tokens[next]) {
        return Err(false), next;
      }
      var command, end := ParseSimpleCommandTokens(tokens, next);
      if command.Err? {
        return Err(command.limit), next;
      }
      parts, next := parts + [command.value], end;
      if next >= |tokens| || !tokens[next].Pipe? {
        return Ok(Pipeline(parts)), next;
      }
      assert tokens[next..][1..] == tokens[next + 1..];
      next := next + 1;
    }
  }

  method ParseShellLine(tokens: seq<Token>) returns (r: Result<Line>)
    ensures r == Parse(tokens)
  {
    var line := Line([], []);
    if tokens == [] {
      return Ok(line);
    }
    var pos := 0;
    assert tokens[0..] == tokens;
    while true
      invariant 0 <= pos < |tokens|
      invariant Parse(tokens) == ParseLine(tokens[pos..], line)
      decreases |tokens| - pos
    {
      var pipeline, next := ParsePipelineTokens(tokens, pos);
      if pipeline.Err? {
        return Err(pipeline.limit);
      }
      line := line.(pipelines := line.pipelines + [pipeline.value]);
      if next >= |tokens| {
        return Ok(line);
      }
      assert tokens[next..][1..] == tokens[next + 1..];
      line := line.(operators := line.operators + [tokens[next]]);
      if next + 1 >= |tokens| {
        return Err(false);
      }
      pos := next + 1;
    }
  }

  // ---------------------------------------------------------------- a command, position by position

  predicate NoOperators(t: seq<Token>)
  {
    forall i :: 0 <= i < |t| ==> !IsOperator(t[i])
  }

  predicate IsFileRedirect(t: Token)
  {
    t.Redirect? && t.text != "2>&1"
  }

  /** The word behind a redirection to a file is its target and not a word of the command. */
  predicate IsTarget(t: seq<Token>, i: nat)
  {
    0 < i < |t| && t[i].WordToken? && IsFileRedirect(t[i - 1])
  }

  /** A redirection is "2>&1", or ">" or "2>" with a non-empty word behind it. */
  predicate Complete(t: seq<Token>, i: nat)
    requires i < |t| && t[i].Redirect?
  {
    || t[i].text == "2>&1"
    || ((t[i].text == ">" || t[i].text == "2>")
        && i + 1 < |t| && t[i + 1].WordToken? && Redirection.TextOf(t[i + 1].word) != "")
  }

  /** What a complete redirection means. */
  function RedirectAt(t: seq<Token>, i: nat): (d: Redirection.Redirect)
    requires i < |t| && t[i].Redirect?
  {
    if t[i].text == "2>&1" then Redirection.Redirect(2, Redirection.Duplication, "", true, 1)
    else
      var target := if i + 1 < |t| && t[i + 1].WordToken? then Redirection.TextOf(t[i + 1].word) else "";
      if t[i].text == ">" then Redirection.Redirect(1, Redirection.Out, target, false, 0)
      else Redirection.Redirect(2, Redirection.ErrOut, target, false, 0)
  }

  /** The words of the first n tokens that are no targets, in order. */
  function WordsTo(t: seq<Token>, n: nat): (ws: seq<Word>)
    requires n <= |t|
  {
    if n == 0 then [] else WordsTo(t, n - 1) + if t[n - 1].WordToken? && !IsTarget(t, n - 1) then [t[n - 1].word] else []
  }

  /** The redirections of the first n tokens, in order. */
  function RedirectsTo(t: seq<Token>, n: nat): (ds: seq<Redirection.Redirect>)
    requires n <= |t|
  {
    if n == 0 then [] else RedirectsTo(t, n - 1) + if t[n - 1].Redirect? then [RedirectAt(t, n - 1)] else []
  }

  /** How many leading words are assignments. */
  function Leading(ws: seq<Word>): (k: nat)
    ensures k <= |ws| && (k < |ws| ==> !IsEnvAssignment(Redirection.TextOf(ws[k])))
    ensures forall i :: 0 <= i < k ==> IsEnvAssignment(Redirection.TextOf(ws[i]))
  {
    if ws == [] || !IsEnvAssignment(Redirection.TextOf(ws[0])) then 0 else 1 + Leading(ws[1..])
  }

  predicate AllComplete(t: seq<Token>, n: nat)
    requires n <= |t|
  {
    forall i :: 0 <= i < n && t[i].Redirect? ==> Complete(t, i)
  }

  predicate AllLiteral(ws: seq<Word>)
  {
    forall i :: 0 <= i < Leading(ws) ==> LiteralAssignment(ws[i])
  }

  /**
   A command is good when its redirections are complete and at most eight, its leading assignments are
   literal, and it is not made of redirections alone.
   */
  predicate GoodCommand(t: seq<Token>)
  {
    var ws, ds := WordsTo(t, |t|), RedirectsTo(t, |t|);
    && AllComplete(t, |t|) && |ds| <= MAX_REDIRECTIONS
    && AllLiteral(ws)
    && (ds != [] ==> Leading(ws) > 0 || (ws != [] && Redirection.TextOf(ws[0]) != ""))
  }

  /** A ninth redirection, with nothing wrong about those before it. */
  predicate TooMany(t: seq<Token>)
  {
    exists i :: 0 <= i < |t| && t[i].Redirect? && |RedirectsTo(t, i)| >= MAX_REDIRECTIONS && AllComplete(t, i)
  }

  function Texts(ws: seq<Word>): (r: seq<string>)
  {
    seq(|ws|, i requires 0 <= i < |ws| => Redirection.TextOf(ws[i]))
  }

  /** Its leading assignments, its other words and its redirections, in order. */
  function CommandOf(t: seq<Token>): (c: Command)
  {
    var ws := WordsTo(t, |t|);
    Command(Texts(ws[..Leading(ws)]), ws[Leading(ws)..], RedirectsTo(t, |t|))
  }

  // ---------------------------------------------------------------- the parser against the positions

  predicate Fault(t: seq<Token>, i: nat)
    requires i < |t|
  {
    t[i].Redirect? && (|RedirectsTo(t, i)| >= MAX_REDIRECTIONS || !Complete(t, i))
  }

  function FirstFault(t: seq<Token>, i: nat): (j: nat)
    requires i <= |t|
    ensures i <= j <= |t| && (j < |t| ==> Fault(t, j))
    ensures forall k :: i <= k < j ==> !Fault(t, k)
    decreases |t| - i
  {
    if i == |t| || Fault(t, i) then i else FirstFault(t, i + 1)
  }

  function CollectedFrom(t: seq<Token>, tail: seq<Token>, j: nat): (r: Result<Collected>)
    requires j <= |t|
  {
    if j == |t| then Ok(Collected(WordsTo(t, |t|), RedirectsTo(t, |t|), tail))
    else Err(|RedirectsTo(t, j)| >= MAX_REDIRECTIONS)
  }

  lemma {:induction false} RedirectRead(t: seq<Token>, tail: seq<Token>, i: nat)
    requires i < |t| && t[i].Redirect? && (tail == [] || IsOperator(tail[0]))
    ensures Redirection.ParseRedirect(t[i..] + tail, 0) ==
            if !Complete(t, i) then Redirection.SyntaxError
            else Redirection.Parsed(RedirectAt(t, i), if t[i].text == "2>&1" then 1 else 2)
  {
    var rest := t[i..] + tail;
    assert rest[0] == t[i];
    if i + 1 < |t| {
      assert rest[1] == t[i + 1];
    } else if tail != [] {
      assert rest[1] == tail[0];
    }
  }

  /** Reading on after a redirection that is no fault. */
  lemma {:induction false} AfterRedirect(t: seq<Token>, i: nat) returns (next: nat)
    requires i < |t| && t[i].Redirect? && !Fault(t, i)
    ensures next == (if t[i].text == "2>&1" then i + 1 else i + 2) && next <= |t| && !IsTarget(t, next)
    ensures WordsTo(t, next) == WordsTo(t, i) && RedirectsTo(t, next) == RedirectsTo(t, i) + [RedirectAt(t, i)]
    ensures FirstFault(t, next) == FirstFault(t, i)
  {
    next := if t[i].text == "2>&1" then i + 1 else i + 2;
    assert WordsTo(t, i + 1) == WordsTo(t, i) && RedirectsTo(t, i + 1) == RedirectsTo(t, i) + [RedirectAt(t, i)];
    if next == i + 2 {
      assert IsTarget(t, i + 1) && WordsTo(t, i + 2) == WordsTo(t, i + 1) && RedirectsTo(t, i + 2) == RedirectsTo(t, i + 1);
    }
  }

  lemma {:induction false} AfterWord(t: seq<Token>, i: nat)
    requires i < |t| && t[i].WordToken? && !IsTarget(t, i)
    ensures WordsTo(t, i + 1) == WordsTo(t, i) + [t[i].word] && RedirectsTo(t, i + 1) == RedirectsTo(t, i)
    ensures FirstFault(t, i + 1) == FirstFault(t, i) && !IsTarget(t, i + 1)
  {
  }

  lemma {:induction false} CollectRedirect(t: seq<Token>, tail: seq<Token>, i: nat, words: seq<Word>, redirects: seq<Redirection.Redirect>)
    requires i < |t| && t[i].Redirect? && (tail == [] || IsOperator(tail[0]))
    ensures var n := if t[i].text == "2>&1" then 1 else 2;
            Collect(t[i..] + tail, words, redirects) ==
            if |redirects| >= MAX_REDIRECTIONS then Err(true)
            else if !Complete(t, i) then Err(false)
            else Collect(t[i + n..] + tail, words, redirects + [RedirectAt(t, i)])
  {
    var n := if t[i].text == "2>&1" then 1 else 2;
    RedirectRead(t, tail, i);
    var rest := t[i..] + tail;
    assert rest[0] == t[i];
    if Complete(t, i) {
      assert rest[n..] == t[i + n..] + tail;
    }
  }

  lemma {:induction false} CollectWord(t: seq<Token>, tail: seq<Token>, i: nat, words: seq<Word>, redirects: seq<Redirection.Redirect>)
    requires i < |t| && t[i].WordToken?
    ensures Collect(t[i..] + tail, words, redirects) == Collect(t[i + 1..] + tail, words + [t[i].word], redirects)
  {
    var rest := t[i..] + tail;
    assert rest[0] == t[i] && rest[1..] == t[i + 1..] + tail;
  }

  lemma {:induction false} CollectMeaning(t: seq<Token>, tail: seq<Token>, i: nat)
    requires NoOperators(t) && (tail == [] || IsOperator(tail[0])) && i <= |t| && !IsTarget(t, i)
    ensures Collect(t[i..] + tail, WordsTo(t, i), RedirectsTo(t, i)) == CollectedFrom(t, tail, FirstFault(t, i))
    decreases |t| - i
  {
    if i == |t| {
      assert t[i..] + tail == tail;
    } else if t[i].Redirect? {
      CollectRedirect(t, tail, i, WordsTo(t, i), RedirectsTo(t, i));
      if !Fault(t, i) {
        var next := AfterRedirect(t, i);
        CollectMeaning(t, tail, next);
      }
    } else {
      CollectWord(t, tail, i, WordsTo(t, i), RedirectsTo(t, i));
      AfterWord(t, i);
      CollectMeaning(t, tail, i + 1);
    }
  }

  lemma {:induction false} CountGrows(t: seq<Token>, i: nat, n: nat)
    requires i <= n <= |t|
    ensures |RedirectsTo(t, i)| <= |RedirectsTo(t, n)|
    decreases n
  {
    if i < n {
      CountGrows(t, i, n - 1);
    }
  }

  /** Among more than eight redirections there is one with eight before it. */
  lemma {:induction false} NinthExists(t: seq<Token>, n: nat) returns (i: nat)
    requires n <= |t| && |RedirectsTo(t, n)| > MAX_REDIRECTIONS
    ensures i < n && t[i].Redirect? && |RedirectsTo(t, i)| >= MAX_REDIRECTIONS
    decreases n
  {
    if t[n - 1].Redirect? && |RedirectsTo(t, n - 1)| >= MAX_REDIRECTIONS {
      i := n - 1;
    } else {
      i := NinthExists(t, n - 1);
    }
  }

  lemma {:induction false} CompleteBefore(t: seq<Token>, n: nat)
    requires n <= |t| && forall k :: 0 <= k < n ==> !Fault(t, k)
    ensures AllComplete(t, n) && |RedirectsTo(t, n)| <= MAX_REDIRECTIONS
  {
    forall i | 0 <= i < n && t[i].Redirect?
      ensures Complete(t, i)
    {
      assert !Fault(t, i);
    }
    if |RedirectsTo(t, n)| > MAX_REDIRECTIONS {
      var i := NinthExists(t, n);
      assert Fault(t, i);
    }
  }

  lemma {:induction false} FaultMeaning(t: seq<Token>)
    ensures FirstFault(t, 0) == |t| <==> AllComplete(t, |t|) && |RedirectsTo(t, |t|)| <= MAX_REDIRECTIONS
    ensures FirstFault(t, 0) < |t| && |RedirectsTo(t, FirstFault(t, 0))| >= MAX_REDIRECTIONS <==> TooMany(t)
  {
    var j := FirstFault(t, 0);
    CompleteBefore(t, j);
    if j == |t| {
      NoNinth(t);
    } else if |RedirectsTo(t, j)| >= MAX_REDIRECTIONS {
      CountGrows(t, j + 1, |t|);
    } else {
      CountBeyond(t, j);
    }
  }

  lemma {:induction false} NoNinth(t: seq<Token>)
    requires |RedirectsTo(t, |t|)| <= MAX_REDIRECTIONS
    ensures !TooMany(t)
  {
    forall i | 0 <= i < |t| && t[i].Redirect?
      ensures |RedirectsTo(t, i)| < MAX_REDIRECTIONS
    {
      CountGrows(t, i + 1, |t|);
    }
  }

  lemma {:induction false} CountBeyond(t: seq<Token>, j: nat)
    requires j < |t| && t[j].Redirect? && !Complete(t, j) && |RedirectsTo(t, j)| < MAX_REDIRECTIONS
    ensures !TooMany(t)
  {
    forall i | 0 <= i < |t| && t[i].Redirect? && |RedirectsTo(t, i)| >= MAX_REDIRECTIONS
      ensures !AllComplete(t, i)
    {
      if i <= j {
        CountGrows(t, i, j);
      }
    }
  }

  lemma {:induction false} BuildMeaning(assignments: seq<string>, ws: seq<Word>, ds: seq<Redirection.Redirect>)
    ensures Build(assignments, ws, ds) ==
            if !AllLiteral(ws) || (ds != [] && assignments == [] && Leading(ws) == 0 && (ws == [] || Redirection.TextOf(ws[0]) == ""))
            then Err(false)
            else Ok(Command(assignments + Texts(ws[..Leading(ws)]), ws[Leading(ws)..], ds))
    decreases |ws|
  {
    if ws != [] && IsEnvAssignment(Redirection.TextOf(ws[0])) {
      BuildMeaning(assignments + [Redirection.TextOf(ws[0])], ws[1..], ds);
      var k := Leading(ws[1..]);
      assert ws[1..][k..] == ws[1 + k..];
      assert Texts(ws[..1 + k]) == [Redirection.TextOf(ws[0])] + Texts(ws[1..][..k]);
      assert assignments + [Redirection.TextOf(ws[0])] + Texts(ws[1..][..k]) == assignments + Texts(ws[..1 + k]);
      LiteralStep(ws);
    } else {
      assert Texts(ws[..0]) == [] && assignments + [] == assignments;
    }
  }

  lemma {:induction false} LiteralStep(ws: seq<Word>)
    requires ws != [] && IsEnvAssignment(Redirection.TextOf(ws[0]))
    ensures AllLiteral(ws) <==> LiteralAssignment(ws[0]) && AllLiteral(ws[1..])
  {
    assert Leading(ws) == 1 + Leading(ws[1..]);
    if AllLiteral(ws) {
      forall i | 0 <= i < Leading(ws[1..])
        ensures LiteralAssignment(ws[1..][i])
      {
        assert ws[1..][i] == ws[i + 1];
      }
    } else if LiteralAssignment(ws[0]) {
      var i :| 0 <= i < Leading(ws) && !LiteralAssignment(ws[i]);
      assert ws[1..][i - 1] == ws[i];
    }
  }

  /** What is left after the tokens up to the next operator. */
  function DropCommand(tokens: seq<Token>): (r: seq<Token>)
    ensures |r| <= |tokens| && (r != [] ==> IsOperator(r[0]))
  {
    if tokens == [] || IsOperator(tokens[0]) then tokens else DropCommand(tokens[1..])
  }

  /** The tokens up to the next operator. */
  function TakeCommand(tokens: seq<Token>): (t: seq<Token>)
    ensures NoOperators(t) && t + DropCommand(tokens) == tokens
  {
    if tokens == [] || IsOperator(tokens[0]) then [] else [tokens[0]] + TakeCommand(tokens[1..])
  }

  /** What the parser makes of a command, in terms of its tokens alone. */
  lemma {:induction false} CommandMeaning(rest: seq<Token>)
    ensures var t := TakeCommand(rest);
            ParseCommand(rest) == if TooMany(t) then Err(true)
                                  else if GoodCommand(t) then Ok((CommandOf(t), DropCommand(rest)))
                                  else Err(false)
    ensures GoodCommand(TakeCommand(rest)) ==> !TooMany(TakeCommand(rest))
  {
    var t, tail := TakeCommand(rest), DropCommand(rest);
    assert t[0..] + tail == rest;
    CollectMeaning(t, tail, 0);
    FaultMeaning(t);
    BuildMeaning([], WordsTo(t, |t|), RedirectsTo(t, |t|));
    var ws := WordsTo(t, |t|);
    assert [] + Texts(ws[..Leading(ws)]) == Texts(ws[..Leading(ws)]);
  }

  // ---------------------------------------------------------------- what is accepted

  /** A line: good commands with exactly one operator between neighbours and none at either end. */
  predicate WellFormed(tokens: seq<Token>)
    decreases |tokens|
  {
    && tokens != [] && !IsOperator(tokens[0]) && GoodCommand(TakeCommand(tokens))
    && (DropCommand(tokens) == [] || WellFormed(DropCommand(tokens)[1..]))
  }

  /** The first thing wrong with a line is a command with too many redirections. */
  predicate HitsLimit(tokens: seq<Token>)
    decreases |tokens|
  {
    && tokens != [] && !IsOperator(tokens[0])
    && (|| TooMany(TakeCommand(tokens))
        || (GoodCommand(TakeCommand(tokens)) && DropCommand(tokens) != [] && HitsLimit(DropCommand(tokens)[1..])))
  }

  /** The line goes on after a command and an operator. */
  lemma {:induction false} FormedStep(tokens: seq<Token>)
    requires tokens != [] && !IsOperator(tokens[0]) && GoodCommand(TakeCommand(tokens))
    ensures WellFormed(tokens) <==> DropCommand(tokens) == [] || WellFormed(DropCommand(tokens)[1..])
    ensures HitsLimit(tokens) <==> DropCommand(tokens) != [] && HitsLimit(DropCommand(tokens)[1..])
  {
    CommandMeaning(tokens);
  }

  lemma {:induction false} PipelineAccepts(rest: seq<Token>, parts: seq<Command>)
    ensures var p := ParsePipeline(rest, parts);
            if p.Err? then !WellFormed(rest) && (p.limit <==> HitsLimit(rest))
            else
              var more := p.value.1;
              && (WellFormed(rest) <==> more == [] || WellFormed(more[1..]))
              && (HitsLimit(rest) <==> more != [] && HitsLimit(more[1..]))
              && (more != [] ==> more[0].And? || more[0].Or?)
    decreases |rest|
  {
    if rest != [] && !IsOperator(rest[0]) {
      CommandMeaning(rest);
      if GoodCommand(TakeCommand(rest)) {
        FormedStep(rest);
        var (command, more) := ParseCommand(rest).value;
        if more != [] && more[0].Pipe? {
          PipelineAccepts(more[1..], parts + [command]);
        }
      }
    }
  }

  lemma {:induction false} LineAccepts(rest: seq<Token>, line: Line)
    ensures ParseLine(rest, line).Ok? <==> WellFormed(rest)
    ensures ParseLine(rest, line) == Err(true) <==> HitsLimit(rest)
    decreases |rest|
  {
    PipelineAccepts(rest, []);
    var p := ParsePipeline(rest, []);
    if p.Ok? && |p.value.1| > 1 {
      var (pipeline, more) := p.value;
      LineAccepts(more[1..], Line(line.pipelines + [pipeline], line.operators + [more[0]]));
    }
  }

  /** The parser accepts exactly the empty line and the well-formed ones, and reports a limit exactly on those that hit it. */
  lemma {:induction false} ParseAccepts(tokens: seq<Token>)
    ensures Parse(tokens).Ok? <==> tokens == [] || WellFormed(tokens)
    ensures Parse(tokens) == Err(true) <==> HitsLimit(tokens)
  {
    if tokens != [] {
      LineAccepts(tokens, Line([], []));
    }
  }

  /** A segment is over a limit exactly when its tokens are, or one of its commands has too many redirections. */
  lemma {:induction false} StatusMeaning(segment: string)
    ensures StatusOf(segment) == ShellLoop.OverLimit <==>
            Tokenize(segment) == LimitError || (Tokenize(segment).Tokens? && HitsLimit(Tokenize(segment).tokens))
    ensures StatusOf(segment) == ShellLoop.Parses <==>
            Tokenize(segment).Tokens? && (Tokenize(segment).tokens == [] || WellFormed(Tokenize(segment).tokens))
  {
    if Tokenize(segment).Tokens? {
      ParseAccepts(Tokenize(segment).tokens);
    }
  }

  // ---------------------------------------------------------------- what is kept

  /** A command, or an operator between commands. */
  datatype Mark = Cmd(command: Command) | Op(token: Token)

  /** The commands and operators of a token sequence. */
  function Marks(tokens: seq<Token>): (m: seq<Mark>)
    decreases |tokens|
  {
    if tokens == [] then []
    else if IsOperator(tokens[0]) then [Op(tokens[0])] + Marks(tokens[1..])
    else [Cmd(CommandOf(TakeCommand(tokens)))] + Marks(DropCommand(tokens[1..]))
  }

  function PipelineMarks(parts: seq<Command>): (m: seq<Mark>)
  {
    if parts == [] then [] else if |parts| == 1 then [Cmd(parts[0])] else [Cmd(parts[0]), Op(Pipe)] + PipelineMarks(parts[1..])
  }

  function LineMarks(pipelines: seq<Pipeline>, operators: seq<Token>): (m: seq<Mark>)
    requires |pipelines| == |operators| + 1
    decreases |pipelines|
  {
    if |pipelines| == 1 then PipelineMarks(pipelines[0].parts)
    else PipelineMarks(pipelines[0].parts) + [Op(operators[0])] + LineMarks(pipelines[1..], operators[1..])
  }

  lemma {:induction false} MarksStep(tokens: seq<Token>)
    requires tokens != []
    ensures Marks(tokens) ==
            if IsOperator(tokens[0]) then [Op(tokens[0])] + Marks(tokens[1..])
            else [Cmd(CommandOf(TakeCommand(tokens)))] + Marks(DropCommand(tokens))
  {
  }

  lemma {:induction false} MorePart(parts: seq<Command>, command: Command, tail: seq<Command>, end: seq<Mark>) returns (mine: seq<Command>)
    requires tail != []
    ensures mine != [] && parts + [command] + tail == parts + mine
    ensures PipelineMarks(mine) + end == [Cmd(command)] + ([Op(Pipe)] + (PipelineMarks(tail) + end))
  {
    mine := [command] + tail;
    assert mine[1..] == tail;
  }

  lemma {:induction false} OnePart(command: Command, end: seq<Mark>)
    ensures PipelineMarks([command]) + end == [Cmd(command)] + end
  {
  }

  /** The first command of a sequence that parses. */
  lemma {:induction false} FirstMark(rest: seq<Token>) returns (command: Command, more: seq<Token>)
    requires rest != [] && !IsOperator(rest[0]) && ParseCommand(rest).Ok?
    ensures ParseCommand(rest) == Ok((command, more)) && Marks(rest) == [Cmd(command)] + Marks(more)
    ensures |more| <= |rest| && (more != [] ==> IsOperator(more[0]) && Marks(more) == [Op(more[0])] + Marks(more[1..]))
  {
    CommandMeaning(rest);
    MarksStep(rest);
    command, more := CommandOf(TakeCommand(rest)), DropCommand(rest);
    if more != [] {
      MarksStep(more);
    }
  }

  lemma {:induction false} PipelineStep(rest: seq<Token>, parts: seq<Command>, command: Command, more: seq<Token>)
    requires rest != [] && !IsOperator(rest[0]) && ParseCommand(rest) == Ok((command, more)) && |more| <= |rest|
    ensures ParsePipeline(rest, parts) ==
            if more == [] || !more[0].Pipe? then Ok((Pipeline(parts + [command]), more)) else ParsePipeline(more[1..], parts + [command])
  {
  }

  lemma {:induction false} PipelineKeeps(rest: seq<Token>, parts: seq<Command>, p: Result<(Pipeline, seq<Token>)>)
    returns (mine: seq<Command>, end: seq<Token>)
    requires p == ParsePipeline(rest, parts) && p.Ok?
    ensures mine != [] && p == Ok((Pipeline(parts + mine), end)) && Marks(rest) == PipelineMarks(mine) + Marks(end)
    decreases |rest|
  {
    var command, more := FirstMark(rest);
    PipelineStep(rest, parts, command, more);
    if more == [] || !more[0].Pipe? {
      mine, end := [command], more;
      OnePart(command, Marks(end));
    } else {
      var tail;
      tail, end := PipelineKeeps(more[1..], parts + [command], p);
      mine := MorePart(parts, command, tail, Marks(end));
    }
  }

  lemma {:induction false} MorePipeline(line: Line, pipeline: Pipeline, op: Token, ps: seq<Pipeline>, os: seq<Token>)
    returns (pipelines: seq<Pipeline>, operators: seq<Token>)
    requires |ps| == |os| + 1
    ensures |pipelines| == |operators| + 1 && operators == [op] + os
    ensures line.pipelines + [pipeline] + ps == line.pipelines + pipelines && line.operators + [op] + os == line.operators + operators
    ensures LineMarks(pipelines, operators) == PipelineMarks(pipeline.parts) + ([Op(op)] + LineMarks(ps, os))
  {
    pipelines, operators := [pipeline] + ps, [op] + os;
    assert pipelines[1..] == ps && operators[1..] == os;
  }

  lemma {:induction false} LastPipeline(line: Line, pipeline: Pipeline)
    ensures line.operators + [] == line.operators
    ensures LineMarks([pipeline], []) == PipelineMarks(pipeline.parts) + []
  {
  }

  lemma {:induction false} LineKeeps(rest: seq<Token>, line: Line, r: Result<Line>) returns (pipelines: seq<Pipeline>, operators: seq<Token>)
    requires r == ParseLine(rest, line) && r.Ok?
    ensures |pipelines| == |operators| + 1
    ensures r == Ok(Line(line.pipelines + pipelines, line.operators + operators))
    ensures Marks(rest) == LineMarks(pipelines, operators)
    ensures forall i :: 0 <= i < |operators| ==> operators[i].And? || operators[i].Or?
    decreases |rest|
  {
    var pipeline, more := FirstPipeline(rest);
    LineStep(rest, line, pipeline, more);
    if more == [] {
      pipelines, operators := [pipeline], [];
      LastPipeline(line, pipeline);
    } else {
      var ps, os := LineKeeps(more[1..], Line(line.pipelines + [pipeline], line.operators + [more[0]]), r);
      pipelines, operators := MorePipeline(line, pipeline, more[0], ps, os);
    }
  }

  /** The first pipeline of a sequence that parses. */
  lemma {:induction false} FirstPipeline(rest: seq<Token>) returns (pipeline: Pipeline, more: seq<Token>)
    requires ParsePipeline(rest, []).Ok?
    ensures ParsePipeline(rest, []) == Ok((pipeline, more)) && Marks(rest) == PipelineMarks(pipeline.parts) + Marks(more)
    ensures |more| <= |rest|
    ensures more != [] ==> (more[0].And? || more[0].Or?) && Marks(more) == [Op(more[0])] + Marks(more[1..])
  {
    var mine, end := PipelineKeeps(rest, [], ParsePipeline(rest, []));
    pipeline, more := Pipeline(mine), end;
    assert [] + mine == mine;
    PipelineAccepts(rest, []);
    if more != [] {
      MarksStep(more);
    }
  }

  lemma {:induction false} LineStep(rest: seq<Token>, line: Line, pipeline: Pipeline, more: seq<Token>)
    requires ParsePipeline(rest, []) == Ok((pipeline, more)) && ParseLine(rest, line).Ok?
    ensures ParseLine(rest, line) ==
            if more == [] then Ok(Line(line.pipelines + [pipeline], line.operators))
            else ParseLine(more[1..], Line(line.pipelines + [pipeline], line.operators + [more[0]]))
  {
  }

  /**
   The parsed line has the commands and operators of its tokens, in order, and each command has the
   assignments, words and redirections of its tokens, in order: nothing is lost, added or moved.
   Pipelines are separated by && and ||, and their parts by |.
   */
  lemma {:induction false} ParseKeepsStructure(tokens: seq<Token>)
    requires tokens != [] && Parse(tokens).Ok?
    ensures var line := Parse(tokens).value;
            && |line.pipelines| == |line.operators| + 1 && LineMarks(line.pipelines, line.operators) == Marks(tokens)
            && forall i :: 0 <= i < |line.operators| ==> line.operators[i].And? || line.operators[i].Or?
  {
    var pipelines, operators := LineKeeps(tokens, Line([], []), Parse(tokens));
    assert [] + pipelines == pipelines && [] + operators == operators;
  }
}
