/**
 Git exec commands (modules/gitserver/path.go, request.go and backend_ssh.go): repository paths, the
 quote-aware tokenizer, the parser with its authorization step, and the printer that the SSH backend
 uses. Strings are sequences of decoded characters.
 */
module GitCommand {
  import opened Paths
  import ShellPath

  datatype Result<T> = Ok(value: T) | Err

  // ---------------------------------------------------------------- NormalizeRepoPath

  predicate SegmentChar(c: char)
  {
    'A' <= c <= 'Z' || 'a' <= c <= 'z' || '0' <= c <= '9' || c == '.' || c == '_' || c == '@' || c == '+' || c == '-'
  }

  predicate ValidSegment(s: string)
  {
    s != "" && s != "." && s != ".." && forall i :: 0 <= i < |s| ==> SegmentChar(s[i])
  }

  predicate ValidSegments(segments: seq<string>)
  {
    forall i :: 0 <= i < |segments| ==> ValidSegment(segments[i])
  }

  /** path.Clean of a path without ".." segments. */
  function Clean(p: string): (c: string)
  {
    var kept := ShellPath.Kept(Split(p));
    if p != "" && p[0] == '/' then "/" + Join(kept) else if kept == [] then "." else Join(kept)
  }

  function NormalizeRepoPath(repo: string): (r: Result<string>)
  {
    if repo == "" || '\\' in repo || ':' in repo then Err
    else
      var stripped := if repo[0] == '/' then repo[1..] else repo;
      if ".." in Split(stripped) then Err
      else
        var cleaned := Clean(stripped);
        if cleaned == "" || cleaned == "." || cleaned == ".." then Err
        else if ValidSegments(Split(cleaned)) then Ok(cleaned)
        else Err
  }

  /** A relative path of valid segments between single slashes. */
  ghost predicate Normalized(p: string)
  {
    ValidSegments(Split(p))
  }

  lemma {:induction false} NormalizedResult(repo: string)
    requires NormalizeRepoPath(repo).Ok?
    ensures Normalized(NormalizeRepoPath(repo).value)
  {
  }

  lemma {:induction false} NormalizedChars(p: string, c: char)
    requires Normalized(p) && c in p
    ensures c == '/' || SegmentChar(c)
  {
    if c != '/' {
      JoinSplit(p);
      SegmentChars(Split(p), c);
      var i :| 0 <= i < |Split(p)| && c in Split(p)[i];
    }
  }

  lemma {:induction false} NormalizedStart(p: string)
    requires Normalized(p)
    ensures p != "" && p[0] != '/'
  {
    assert Split("") == [""];
    assert p != "" && p[0] == '/' ==> Split(p)[0] == "";
    assert ValidSegment(Split(p)[0]);
  }

  lemma {:induction false} NormalizedClean(p: string)
    requires Normalized(p)
    ensures Clean(p) == p && ".." !in Split(p) && p != "." && p != ".."
  {
    NormalizedStart(p);
    SplitNoSlash(p);
    assert ShellPath.Names(Split(p));
    ShellPath.KeptAll(Split(p));
    JoinSplit(p);
    if p == "." || p == ".." {
      SplitWhole(p);
      assert false;
    }
  }

  /** Normalizing is idempotent: exactly the normalized paths are fixed. */
  lemma {:induction false} NormalizeFixed(p: string)
    ensures NormalizeRepoPath(p) == Ok(p) <==> Normalized(p)
  {
    if Normalized(p) {
      NormalizedStart(p);
      NormalizedClean(p);
      if '\\' in p {
        NormalizedChars(p, '\\');
      }
      if ':' in p {
        NormalizedChars(p, ':');
      }
    }
  }

  // ---------------------------------------------------------------- the tokenizer

  datatype Quote = NoQuote | InSingle | InDouble

  predicate IsControl(c: char)
  {
    c < ' ' || c == '\U{007F}'
  }

  function Flushed(tokens: seq<string>, cur: string, inToken: bool): (t: seq<string>)
  {
    if inToken then tokens + [cur] else tokens
  }

  function TokenizeRest(rest: string, tokens: seq<string>, cur: string, inToken: bool, quote: Quote): (r: Result<seq<string>>)
    decreases |rest|
  {
    if rest == "" then
      if quote != NoQuote || Flushed(tokens, cur, inToken) == [] then Err else Ok(Flushed(tokens, cur, inToken))
    else
      var c, more := rest[0], rest[1..];
      if IsControl(c) then Err
      else
        match quote
        case InSingle =>
          if c == '\'' then TokenizeRest(more, tokens, cur, inToken, NoQuote)
          else TokenizeRest(more, tokens, cur + [c], inToken, InSingle)
        case InDouble =>
          if c == '"' then TokenizeRest(more, tokens, cur, inToken, NoQuote)
          else TokenizeRest(more, tokens, cur + [c], inToken, InDouble)
        case NoQuote =>
          if c == '\'' then TokenizeRest(more, tokens, cur, true, InSingle)
          else if c == '"' then TokenizeRest(more, tokens, cur, true, InDouble)
          else if c == ' ' || c == '\t' then
            TokenizeRest(more, Flushed(tokens, cur, inToken), if inToken then "" else cur, false, NoQuote)
          else TokenizeRest(more, tokens, cur + [c], true, NoQuote)
  }

  method Tokenize(s: string) returns (r: Result<seq<string>>)
    ensures r == TokenizeRest(s, [], "", false, NoQuote)
  {
    var tokens: seq<string>, cur, inToken, quote := [], "", false, NoQuote;
    var i := 0;
    while i < |s|
      invariant 0 <= i <= |s|
      invariant TokenizeRest(s, [], "", false, NoQuote) == TokenizeRest(s[i..], tokens, cur, inToken, quote)
    {
      var c := s[i];
      assert s[i..][0] == c && s[i..][1..] == s[i + 1..];
      if IsControl(c) {
        return Err;
      }
      match quote {
        case InSingle =>
          if c == '\'' {
            quote := NoQuote;
          } else {
            cur := cur + [c];
          }
        case InDouble =>
          if c == '"' {
            quote := NoQuote;
          } else {
            cur := cur + [c];
          }
        case NoQuote =>
          if c == '\'' {
            quote, inToken := InSingle, true;
          } else if c == '"' {
            quote, inToken := InDouble, true;
          } else if c == ' ' || c == '\t' {
            if inToken {
              tokens, cur, inToken := tokens + [cur], "", false;
            }
          } else {
            cur, inToken := cur + [c], true;
          }
      }
      i := i + 1;
    }
    if quote != NoQuote {
      return Err;
    }
    if inToken {
      tokens := tokens + [cur];
    }
    return if tokens == [] then Err else Ok(tokens);
  }

  /** A stretch of ordinary characters is collected. */
  lemma {:induction false} PlainRun(a: string, rest: string, tokens: seq<string>, cur: string)
    requires forall i :: 0 <= i < |a| ==> !IsControl(a[i]) && a[i] !in "'\" \t"
    requires a != ""
    ensures TokenizeRest(a + rest, tokens, cur, false, NoQuote) == TokenizeRest(rest, tokens, cur + a, true, NoQuote)
    ensures TokenizeRest(a + rest, tokens, cur, true, NoQuote) == TokenizeRest(rest, tokens, cur + a, true, NoQuote)
    decreases |a|
  {
    assert (a + rest)[0] == a[0] && (a + rest)[1..] == a[1..] + rest;
    if |a| == 1 {
      assert a[1..] + rest == rest && cur + [a[0]] == cur + a;
    } else {
      PlainRun(a[1..], rest, tokens, cur + [a[0]]);
      assert cur + [a[0]] + a[1..] == cur + a;
    }
  }

  /** So is a stretch without quotes inside single quotes. */
  lemma {:induction false} QuotedRun(a: string, rest: string, tokens: seq<string>, cur: string)
    requires forall i :: 0 <= i < |a| ==> !IsControl(a[i]) && a[i] != '\''
    ensures TokenizeRest(a + rest, tokens, cur, true, InSingle) == TokenizeRest(rest, tokens, cur + a, true, InSingle)
    decreases |a|
  {
    if a == "" {
      assert a + rest == rest && cur + a == cur;
    } else {
      assert (a + rest)[0] == a[0] && (a + rest)[1..] == a[1..] + rest;
      QuotedRun(a[1..], rest, tokens, cur + [a[0]]);
      assert cur + [a[0]] + a[1..] == cur + a;
    }
  }

  predicate Printable(t: string)
  {
    forall i :: 0 <= i < |t| ==> !IsControl(t[i]) && t[i] != '\''
  }

  function Blanks(n: nat): (s: string)
  {
    if n == 0 then "" else " " + Blanks(n - 1)
  }

  /** Every token in single quotes behind so many blanks, and blanks at the end. */
  function QuotedLine(tokens: seq<string>, gaps: seq<nat>, end: nat): (s: string)
    requires |gaps| == |tokens|
  {
    if tokens == [] then Blanks(end) else Blanks(gaps[0]) + ("'" + (tokens[0] + ("'" + QuotedLine(tokens[1..], gaps[1..], end))))
  }

  lemma {:induction false} BlankRun(n: nat, rest: string, tokens: seq<string>, cur: string, inToken: bool)
    requires inToken || cur == ""
    ensures TokenizeRest(Blanks(n) + rest, tokens, cur, inToken, NoQuote) ==
            if n == 0 then TokenizeRest(rest, tokens, cur, inToken, NoQuote)
            else TokenizeRest(rest, Flushed(tokens, cur, inToken), "", false, NoQuote)
    decreases n
  {
    if n == 0 {
      assert Blanks(n) + rest == rest;
    } else {
      var s := Blanks(n) + rest;
      assert s[0] == ' ' && s[1..] == Blanks(n - 1) + rest;
      BlankRun(n - 1, rest, Flushed(tokens, cur, inToken), "", false);
    }
  }

  lemma {:induction false} QuotedToken(t: string, rest: string, tokens: seq<string>)
    requires Printable(t)
    ensures TokenizeRest("'" + (t + ("'" + rest)), tokens, "", false, NoQuote) == TokenizeRest(rest, tokens, t, true, NoQuote)
  {
    var s, more := "'" + (t + ("'" + rest)), "'" + rest;
    assert s[0] == '\'' && s[1..] == t + more;
    QuotedRun(t, more, tokens, "");
    assert "" + t == t && more[0] == '\'' && more[1..] == rest;
  }

  lemma {:induction false} QuotedTokens(ts: seq<string>, gaps: seq<nat>, end: nat, tokens: seq<string>, cur: string, inToken: bool)
    requires |gaps| == |ts| && (inToken || cur == "") && (inToken && ts != [] ==> gaps[0] > 0)
    requires (forall i :: 0 <= i < |ts| ==> Printable(ts[i])) && forall i :: 0 < i < |ts| ==> gaps[i] > 0
    ensures var all := Flushed(tokens, cur, inToken) + ts;
            TokenizeRest(QuotedLine(ts, gaps, end), tokens, cur, inToken, NoQuote) == if all == [] then Err else Ok(all)
    decreases |ts|
  {
    var flushed := Flushed(tokens, cur, inToken);
    if ts == [] {
      assert Blanks(end) + "" == Blanks(end) && flushed + [] == flushed;
      BlankRun(end, "", tokens, cur, inToken);
    } else {
      var rest := QuotedLine(ts[1..], gaps[1..], end);
      BlankRun(gaps[0], "'" + (ts[0] + ("'" + rest)), tokens, cur, inToken);
      QuotedToken(ts[0], rest, flushed);
      QuotedTokens(ts[1..], gaps[1..], end, flushed, ts[0], true);
      assert flushed + [ts[0]] + ts[1..] == flushed + ts;
    }
  }

  /**
   What the tokenizer means: any tokens without control characters and single quotes, empty ones
   included, put in single quotes with blanks between them, come back.
   */
  lemma {:induction false} TokenizeQuoted(ts: seq<string>, gaps: seq<nat>, end: nat)
    requires ts != [] && |gaps| == |ts| && forall i :: 0 < i < |ts| ==> gaps[i] > 0
    requires forall i :: 0 <= i < |ts| ==> Printable(ts[i])
    ensures TokenizeRest(QuotedLine(ts, gaps, end), [], "", false, NoQuote) == Ok(ts)
  {
    QuotedTokens(ts, gaps, end, [], "", false);
    assert [] + ts == ts;
  }

  // ---------------------------------------------------------------- parsing and printing

  datatype Operation = Read | Write

  datatype Request = Request(command: string, operation: Operation, repoPath: string, backendPath: string)

  const UNSAFE: string := ";&|`$<>()"

  const UPLOAD_PACK: string := "git-upload-pack"
  const RECEIVE_PACK: string := "git-receive-pack"
  const UPLOAD_ARCHIVE: string := "git-upload-archive"

  predicate KnownCommand(command: string)
  {
    command == UPLOAD_PACK || command == RECEIVE_PACK || command == UPLOAD_ARCHIVE
  }

  function OperationOf(command: string): (o: Operation)
  {
    if command == RECEIVE_PACK then Write else Read
  }

  /** The two accepted shapes: the hyphenated command, or git followed by the bare service name. */
  function CommandOf(tokens: seq<string>): (r: Result<(string, string)>)
  {
    if |tokens| == 3 && tokens[0] == "git" then
      if KnownCommand("git-" + tokens[1]) then Ok(("git-" + tokens[1], tokens[2])) else Err
    else if |tokens| == 2 then
      if KnownCommand(tokens[0]) then Ok((tokens[0], tokens[1])) else Err
    else Err
  }

  predicate HasUnsafe(s: string)
  {
    exists i :: 0 <= i < |s| && s[i] in UNSAFE
  }

  function ParseGitCommand(command: string): (r: Result<Request>)
  {
    if HasUnsafe(command) then Err
    else
      var tokens := TokenizeRest(command, [], "", false, NoQuote);
      if tokens.Err? then Err
      else
        var c := CommandOf(tokens.value);
        if c.Err? then Err
        else
          var repo := NormalizeRepoPath(c.value.1);
          if repo.Err? then Err else Ok(Request(c.value.0, OperationOf(c.value.0), repo.value, ""))
  }

  function BuildBackendCommand(req: Request): (r: Result<string>)
  {
    if !KnownCommand(req.command) then Err
    else
      var p := NormalizeRepoPath(if req.backendPath == "" then req.repoPath else req.backendPath);
      if p.Err? then Err else Ok(req.command + " '" + p.value + "'")
  }

  // ---------------------------------------------------------------- the round trip

  lemma {:induction false} CommandChars(command: string, i: nat)
    requires KnownCommand(command) && i < |command|
    ensures 'a' <= command[i] <= 'z' || command[i] == '-'
  {
  }

  lemma {:induction false} PrintedTokens(command: string, p: string)
    requires KnownCommand(command) && Normalized(p)
    ensures TokenizeRest(command + " '" + p + "'", [], "", false, NoQuote) == Ok([command, p])
  {
    forall i | 0 <= i < |command|
      ensures !IsControl(command[i]) && command[i] !in "'\" \t"
    {
      CommandChars(command, i);
    }
    forall i | 0 <= i < |p|
      ensures !IsControl(p[i]) && p[i] != '\''
    {
      NormalizedChars(p, p[i]);
    }
    var rest := " '" + p + "'";
    assert command + " '" + p + "'" == command + rest;
    PlainRun(command, rest, [], "");
    assert "" + command == command;
    AfterCommand(command, p);
  }

  lemma {:induction false} AfterCommand(command: string, p: string)
    requires forall i :: 0 <= i < |p| ==> !IsControl(p[i]) && p[i] != '\''
    ensures TokenizeRest(" '" + p + "'", [], command, true, NoQuote) == Ok([command, p])
  {
    var rest := " '" + p + "'";
    assert rest[0] == ' ' && rest[1..] == "'" + (p + "'");
    assert [] + [command] == [command];
    var quoted := "'" + (p + "'");
    assert quoted[0] == '\'' && quoted[1..] == p + "'";
    QuotedRun(p, "'", [command], "");
    assert "" + p == p;
    assert "'"[0] == '\'' && "'"[1..] == "";
    assert [command] + [p] == [command, p];
  }

  lemma {:induction false} PrintedIsSafe(command: string, p: string)
    requires KnownCommand(command) && Normalized(p)
    ensures !HasUnsafe(command + " '" + p + "'")
  {
    var s := command + " '" + p + "'";
    forall i | 0 <= i < |s|
      ensures s[i] !in UNSAFE
    {
      if i < |command| {
        CommandChars(command, i);
      } else if |command| + 2 <= i < |command| + 2 + |p| {
        assert s[i] == p[i - |command| - 2];
        NormalizedChars(p, s[i]);
      }
    }
  }

  /**
   Whenever the printer accepts a request, parsing its output gives the same command and the
   normalized backend path.
   */
  lemma {:induction false} ParsePrinted(req: Request)
    requires BuildBackendCommand(req).Ok?
    ensures var p := NormalizeRepoPath(if req.backendPath == "" then req.repoPath else req.backendPath);
            && p.Ok?
            && ParseGitCommand(BuildBackendCommand(req).value) ==
               Ok(Request(req.command, OperationOf(req.command), p.value, ""))
  {
    var p := NormalizeRepoPath(if req.backendPath == "" then req.repoPath else req.backendPath).value;
    PrintedIsSafe(req.command, p);
    PrintedTokens(req.command, p);
    NormalizeFixed(p);
  }

  /** Every parsed request is printable, and parsing what is printed gives it back. */
  lemma {:induction false} PrintParsed(command: string)
    requires ParseGitCommand(command).Ok?
    ensures var req := ParseGitCommand(command).value;
            && KnownCommand(req.command) && Normalized(req.repoPath)
            && BuildBackendCommand(req).Ok?
            && ParseGitCommand(BuildBackendCommand(req).value) == Ok(req)
  {
    var req := ParseGitCommand(command).value;
    NormalizeFixed(req.repoPath);
    ParsePrinted(req);
  }

  // ---------------------------------------------------------------- authorization

  datatype Repository = Repository(backendPath: string, readKeys: seq<string>, writeKeys: seq<string>)

  datatype Permission = NotGit | Git(fingerprint: string)

  function Authorize(perm: Permission, repos: map<string, Repository>, req: Request): (r: Result<Request>)
    ensures r.Ok? <==> perm.Git? && MayUse(perm.fingerprint, repos, req)
    ensures r.Ok? ==> r.value.command == req.command && r.value.operation == req.operation
                      && r.value.repoPath in repos && r.value.backendPath == repos[r.value.repoPath].backendPath
  {
    if perm.NotGit? || perm.fingerprint == "" then Err
    else
      var repo := NormalizeRepoPath(req.repoPath);
      if repo.Err? || repo.value !in repos then Err
      else
        var rc := repos[repo.value];
        var allowed := if req.operation.Read? then perm.fingerprint in rc.readKeys || perm.fingerprint in rc.writeKeys
                       else perm.fingerprint in rc.writeKeys;
        if allowed then Ok(req.(repoPath := repo.value, backendPath := rc.backendPath)) else Err
  }

  /** Read access is for read and write keys, write access for write keys only, and nobody has access without a key. */
  predicate MayUse(fingerprint: string, repos: map<string, Repository>, req: Request)
  {
    fingerprint != "" &&
    match NormalizeRepoPath(req.repoPath)
    case Err => false
    case Ok(p) =>
      p in repos && (fingerprint in repos[p].writeKeys || (req.operation.Read? && fingerprint in repos[p].readKeys))
  }
}
