/**
 The read loop of the fake shell (modules/fakeshell/fakeshell.go) as a streaming splitter, proved to
 execute exactly the segments of a batch splitter with a line limit over the whole input, however
 reads are chunked.
 */
module ShellLoop {
  import opened ShellInput
  import opened ShellTokens

  const MAX_LINE: nat := 4096
  const MAX_COMMANDS: nat := 64

  /** parseShellLine of a segment, and executeShellLine given all segments executed before it. */
  datatype Status = Parses | BadSyntax | OverLimit

  datatype Execution = Proceeds | Exits | Fails

  datatype Shell = Shell(parse: string -> Status, execute: seq<string> -> Execution)

  datatype Result = Ended | Exited | LimitExceeded | ExecFailed | TooLong | ReadFailed | OutOfReads

  /** The session came to its own end. */
  predicate Final(r: Result)
  {
    r == Ended || r == Exited || r == LimitExceeded || r == ExecFailed
  }

  // ---------------------------------------------------------------- the batch splitter

  /** What follows the first newline; nothing if there is none. */
  function AfterLine(s: string): (r: string)
    ensures |r| <= |s| && (s != "" ==> |r| < |s|)
  {
    if s == "" then "" else if s[0] == '\n' then s[1..] else AfterLine(s[1..])
  }

  /** What is left after the first segment: a syntax error takes the rest of its physical line along. */
  function AfterSegment(sh: Shell, rest: string): (r: string)
    requires rest != ""
    ensures |r| < |rest|
  {
    if sh.parse(Segment(rest)) == BadSyntax then AfterLine(rest) else rest[|Segment(rest)|..]
  }

  datatype Outcome = Outcome(executed: seq<string>, result: Result)

  /** Cut, execute, and go on, with all of the input at hand. */
  function Batch(sh: Shell, rest: string, executed: seq<string>): (o: Outcome)
    decreases |rest|
  {
    if rest == "" then Outcome(executed, Ended)
    else if sh.parse(Segment(rest)) == OverLimit then Outcome(executed, LimitExceeded)
    else
      var all := executed + [Segment(rest)];
      match sh.execute(all)
      case Exits => Outcome(all, Exited)
      case Fails => Outcome(all, ExecFailed)
      case Proceeds => Batch(sh, AfterSegment(sh, rest), all)
  }

  /** No separator within the limit, and more input than fits it. */
  predicate TooWide(rest: string)
  {
    |rest| > MAX_LINE && Separator(rest[..MAX_LINE + 1]) == NoCut
  }

  /** The same with the line limit: a segment that does not fit ends the session. */
  function Limited(sh: Shell, rest: string, executed: seq<string>): (o: Outcome)
    decreases |rest|
  {
    if rest == "" then Outcome(executed, Ended)
    else if TooWide(rest) then Outcome(executed, TooLong)
    else if sh.parse(Segment(rest)) == OverLimit then Outcome(executed, LimitExceeded)
    else
      var all := executed + [Segment(rest)];
      match sh.execute(all)
      case Exits => Outcome(all, Exited)
      case Fails => Outcome(all, ExecFailed)
      case Proceeds => Limited(sh, AfterSegment(sh, rest), all)
  }

  /** The limit only ever cuts a session short. */
  lemma {:induction false} LimitedIsBatch(sh: Shell, rest: string, executed: seq<string>)
    ensures executed <= Limited(sh, rest, executed).executed <= Batch(sh, rest, executed).executed
    ensures Limited(sh, rest, executed) == Batch(sh, rest, executed) <==> Limited(sh, rest, executed).result != TooLong
    decreases |rest|
  {
    BatchEnds(sh, rest, executed);
    if rest != "" && !TooWide(rest) && sh.parse(Segment(rest)) != OverLimit {
      var all := executed + [Segment(rest)];
      if sh.execute(all) == Proceeds {
        LimitedIsBatch(sh, AfterSegment(sh, rest), all);
      }
    }
  }

  lemma {:induction false} BatchEnds(sh: Shell, rest: string, executed: seq<string>)
    ensures executed <= Batch(sh, rest, executed).executed && Final(Batch(sh, rest, executed).result)
    decreases |rest|
  {
    if rest != "" && sh.parse(Segment(rest)) != OverLimit {
      var all := executed + [Segment(rest)];
      if sh.execute(all) == Proceeds {
        BatchEnds(sh, AfterSegment(sh, rest), all);
      }
    }
  }

  // ---------------------------------------------------------------- lines

  predicate NoNewline(s: string)
  {
    forall i :: 0 <= i < |s| ==> s[i] != '\n'
  }

  /** Every stretch without a newline fits the line limit. */
  ghost predicate LinesFit(s: string)
  {
    forall i, j :: 0 <= i <= j <= |s| && NoNewline(s[i..j]) ==> j - i <= MAX_LINE
  }

  ghost predicate Suffix(t: string, s: string)
  {
    |t| <= |s| && t == s[|s| - |t|..]
  }

  lemma {:induction false} LinesFitSuffix(s: string, t: string)
    requires LinesFit(s) && Suffix(t, s)
    ensures LinesFit(t)
  {
    var k := |s| - |t|;
    forall i, j | 0 <= i <= j <= |s[k..]| && NoNewline(s[k..][i..j])
      ensures j - i <= MAX_LINE
    {
      assert s[k..][i..j] == s[k + i..k + j];
    }
  }

  /** The first physical line fits the limit. */
  predicate LineFits(s: string)
  {
    |s| <= MAX_LINE || !NoNewline(s[..MAX_LINE + 1])
  }

  /** Every line that a syntax error drops fits, from the segment with the error on. */
  predicate DropsFit(sh: Shell, rest: string, executed: seq<string>)
    decreases |rest|
  {
    if rest == "" || TooWide(rest) || sh.parse(Segment(rest)) == OverLimit then true
    else
      var all := executed + [Segment(rest)];
      sh.execute(all) == Proceeds ==>
        && (sh.parse(Segment(rest)) == BadSyntax ==> LineFits(rest))
        && DropsFit(sh, AfterSegment(sh, rest), all)
  }

  lemma {:induction false} LinesFitFirst(s: string)
    requires LinesFit(s)
    ensures LineFits(s) && !TooWide(s)
  {
    if |s| > MAX_LINE {
      var line := s[0..MAX_LINE + 1];
      assert line == s[..MAX_LINE + 1] && !NoNewline(line);
      var k :| 0 <= k < |line| && line[k] == '\n';
      NewlineCuts(line, k);
    }
  }

  lemma {:induction false} AfterLineSuffix(s: string)
    ensures Suffix(AfterLine(s), s)
  {
    if s != "" && s[0] != '\n' {
      AfterLineSuffix(s[1..]);
    }
  }

  /** If all lines fit, so does everything else. */
  lemma {:induction false} LinesFitAll(sh: Shell, rest: string, executed: seq<string>)
    requires LinesFit(rest)
    ensures DropsFit(sh, rest, executed) && Limited(sh, rest, executed) == Batch(sh, rest, executed)
    decreases |rest|
  {
    LinesFitFirst(rest);
    if rest != "" && sh.parse(Segment(rest)) != OverLimit {
      var all := executed + [Segment(rest)];
      if sh.execute(all) == Proceeds {
        AfterLineSuffix(rest);
        LinesFitSuffix(rest, AfterSegment(sh, rest));
        LinesFitAll(sh, AfterSegment(sh, rest), all);
      }
    }
  }

  lemma {:induction false} AfterLineSplit(a: string, b: string)
    requires NoNewline(a)
    ensures AfterLine(a + b) == AfterLine(b)
    decreases |a|
  {
    if a == "" {
      assert a + b == b;
    } else {
      assert (a + b)[1..] == a[1..] + b;
      AfterLineSplit(a[1..], b);
    }
  }

  lemma {:induction false} AfterLineAt(s: string, k: nat)
    requires k < |s| && s[k] == '\n' && NoNewline(s[..k])
    ensures AfterLine(s) == s[k + 1..]
  {
    assert s == s[..k] + s[k..];
    AfterLineSplit(s[..k], s[k..]);
    assert s[k..][1..] == s[k + 1..];
  }

  lemma {:induction false} AfterLineNone(s: string)
    requires NoNewline(s)
    ensures AfterLine(s) == ""
  {
    assert s == s + "";
    AfterLineSplit(s, "");
  }

  /** consumePhysicalInputLine. */
  method ConsumePhysicalLine(buf: string) returns (end: nat, complete: bool)
    ensures end <= |buf|
    ensures complete ==> 0 < end && buf[end - 1] == '\n' && NoNewline(buf[..end - 1])
    ensures !complete ==> end == |buf| && NoNewline(buf)
  {
    var i := 0;
    while i < |buf|
      invariant 0 <= i <= |buf| && NoNewline(buf[..i])
    {
      if buf[i] == '\n' {
        return i + 1, true;
      }
      i := i + 1;
    }
    assert buf[..i] == buf;
    return |buf|, false;
  }

  // ---------------------------------------------------------------- segments in a partial buffer

  /** Where a splitter stands that has seen part of the input: what it executed and what it kept. */
  datatype Progress = Progress(executed: seq<string>, result: Result, discard: bool, rest: string)

  /** Split what has arrived: execute every segment whose separator is there, and wait for more. */
  function SoFar(sh: Shell, discard: bool, seen: string, executed: seq<string>): (p: Progress)
    decreases |seen|, if discard then 0 else 1
  {
    if discard then
      if NoNewline(seen) then Progress(executed, OutOfReads, true, "") else SoFar(sh, false, AfterLine(seen), executed)
    else if Separator(seen) == NoCut then Progress(executed, OutOfReads, false, seen)
    else if sh.parse(Segment(seen)) == OverLimit then Progress(executed, LimitExceeded, false, "")
    else
      var all := executed + [Segment(seen)];
      match sh.execute(all)
      case Exits => Progress(all, Exited, false, "")
      case Fails => Progress(all, ExecFailed, false, "")
      case Proceeds =>
        if sh.parse(Segment(seen)) == BadSyntax then SoFar(sh, true, seen, all)
        else SoFar(sh, false, seen[|Segment(seen)|..], all)
  }

  /** Splitting as input arrives is splitting it all: a part that was split need not be looked at again. */
  lemma {:induction false} SoFarAppend(sh: Shell, discard: bool, a: string, b: string, executed: seq<string>)
    ensures SoFar(sh, discard, a + b, executed) ==
            var p := SoFar(sh, discard, a, executed);
            if p.result != OutOfReads then p else SoFar(sh, p.discard, p.rest + b, p.executed)
    decreases |a|, if discard then 0 else 1
  {
    if discard {
      DiscardAppend(a, b);
      NoNewlineAppend(a, b);
      if !NoNewline(a) {
        SoFarAppend(sh, false, AfterLine(a), b, executed);
      }
    } else if Separator(a).CutAt? {
      SegmentStable(a, b);
      SeparatorStable(a, b);
      var all := executed + [Segment(a)];
      if sh.parse(Segment(a)) != OverLimit && sh.execute(all) == Proceeds {
        if sh.parse(Segment(a)) == BadSyntax {
          SoFarAppend(sh, true, a, b, all);
        } else {
          assert (a + b)[|Segment(a)|..] == a[|Segment(a)|..] + b;
          SoFarAppend(sh, false, a[|Segment(a)|..], b, all);
        }
      }
    }
  }

  /** What is kept of a buffer whose first physical line is dropped, and whether dropping goes on. */
  function DropLine(buf: string, eof: bool): (r: (string, bool))
  {
    if NoNewline(buf) then ("", !eof) else (AfterLine(buf), false)
  }

  lemma {:induction false} NoNewlineAppend(a: string, b: string)
    ensures NoNewline(a + b) <==> NoNewline(a) && NoNewline(b)
  {
    assert forall i :: 0 <= i < |b| ==> (a + b)[|a| + i] == b[i];
    assert forall i :: 0 <= i < |a| ==> (a + b)[i] == a[i];
  }

  lemma {:induction false} DiscardAppend(a: string, b: string)
    ensures "" + b == b
    ensures AfterLine(a + b) == if NoNewline(a) then AfterLine(b) else AfterLine(a) + b
    decreases |a|
  {
    if a == "" {
      assert a + b == b;
    } else {
      assert (a + b)[1..] == a[1..] + b;
      assert a == [a[0]] + a[1..];
      NoNewlineAppend([a[0]], a[1..]);
      if a[0] != '\n' {
        DiscardAppend(a[1..], b);
      }
    }
  }

  lemma {:induction false} NewlineCuts(buf: string, k: nat)
    requires k < |buf| && buf[k] == '\n'
    ensures Separator(buf).CutAt? && Separator(buf).index <= k
  {
    if Separator(buf) == NoCut {
      NoSeparator(buf, k);
      assert false;
    }
    SeparatorIsFirst(buf, Separator(buf).index);
  }

  /** A segment complete in the buffer is the segment of the whole input, and so is the last one. */
  lemma {:induction false} SegmentStable(buf: string, unread: string)
    requires Separator(buf).CutAt? || unread == ""
    ensures Segment(buf + unread) == Segment(buf)
  {
    if Separator(buf).CutAt? {
      SeparatorStable(buf, unread);
      var k := Separator(buf).index;
      assert (buf + unread)[..k + 1] == buf[..k + 1];
    } else {
      assert buf + unread == buf;
    }
  }

  /** A segment that can be cut off the buffer, now or at the end of input, fits. */
  lemma {:induction false} NotTooWide(buf: string, unread: string)
    requires |buf| <= MAX_LINE + 1 && (Separator(buf).CutAt? || (unread == "" && |buf| <= MAX_LINE))
    ensures !TooWide(buf + unread)
  {
    var rest := buf + unread;
    if |rest| > MAX_LINE && Separator(buf).CutAt? {
      assert rest[..MAX_LINE + 1] == buf + rest[|buf|..MAX_LINE + 1];
      SeparatorStable(buf, rest[|buf|..MAX_LINE + 1]);
    }
  }

  /** A full buffer without a separator holds one that does not. */
  lemma {:induction false} FullIsTooWide(buf: string, unread: string)
    requires |buf| > MAX_LINE && Separator(buf) == NoCut
    ensures TooWide(buf + unread)
  {
    var front := buf[..MAX_LINE + 1];
    assert (buf + unread)[..MAX_LINE + 1] == front && buf == front + buf[MAX_LINE + 1..];
    SeparatorStable(front, buf[MAX_LINE + 1..]);
  }

  /** While a line that fits is dropped, a full buffer holds its end. */
  lemma {:induction false} FullHoldsLine(buf: string, unread: string)
    requires |buf| > MAX_LINE && LineFits(buf + unread)
    ensures Separator(buf).CutAt?
  {
    var front := buf[..MAX_LINE + 1];
    assert (buf + unread)[..MAX_LINE + 1] == front;
    var k :| 0 <= k < |front| && front[k] == '\n';
    NewlineCuts(buf, k);
  }

  /** What follows a dropped piece of a line that fits, fits. */
  lemma {:induction false} LineFitsAfter(a: string, b: string)
    requires NoNewline(a) && LineFits(a + b)
    ensures LineFits(b)
  {
    if |b| > MAX_LINE {
      var front := (a + b)[..MAX_LINE + 1];
      var k :| 0 <= k < |front| && front[k] == '\n';
      assert |a| <= k && b[..MAX_LINE + 1][k - |a|] == '\n';
    }
  }

  /** The splitters under names whose definitions the bookkeeping of a session does not need. */
  datatype Splitter = Splitter(
    batch: (string, seq<string>) -> Outcome,
    soFar: (bool, string, seq<string>) -> Progress,
    fits: (string, seq<string>) -> bool)

  ghost function InAll(f: Splitter, rest: string, executed: seq<string>): (o: Outcome)
  {
    f.batch(rest, executed)
  }

  ghost function ByNow(f: Splitter, discard: bool, seen: string, executed: seq<string>): (p: Progress)
  {
    f.soFar(discard, seen, executed)
  }

  ghost predicate Fitting(f: Splitter, rest: string, executed: seq<string>)
  {
    f.fits(rest, executed)
  }

  ghost predicate Splits(sh: Shell, f: Splitter)
  {
    && (forall rest, executed {:trigger Limited(sh, rest, executed)} :: InAll(f, rest, executed) == Limited(sh, rest, executed))
    && (forall discard, seen, executed {:trigger SoFar(sh, discard, seen, executed)} ::
          ByNow(f, discard, seen, executed) == SoFar(sh, discard, seen, executed))
    && (forall rest, executed {:trigger DropsFit(sh, rest, executed)} :: Fitting(f, rest, executed) == DropsFit(sh, rest, executed))
  }

  /** Executing the first segment of what remains. */
  lemma {:induction false} InAllStep(sh: Shell, f: Splitter, rest: string, executed: seq<string>, all: seq<string>, after: string)
    requires Splits(sh, f) && rest != "" && !TooWide(rest) && sh.parse(Segment(rest)) != OverLimit && all == executed + [Segment(rest)]
    requires after == AfterSegment(sh, rest)
    ensures InAll(f, rest, executed) ==
            match sh.execute(all)
            case Exits => Outcome(all, Exited)
            case Fails => Outcome(all, ExecFailed)
            case Proceeds => InAll(f, after, all)
    ensures Fitting(f, rest, executed) && sh.execute(all) == Proceeds ==>
              Fitting(f, after, all) && (sh.parse(Segment(rest)) == BadSyntax ==> LineFits(rest))
  {
    assert Limited(sh, rest, executed) == InAll(f, rest, executed) && Limited(sh, after, all) == InAll(f, after, all);
    assert DropsFit(sh, rest, executed) == Fitting(f, rest, executed) && DropsFit(sh, after, all) == Fitting(f, after, all);
  }

  lemma {:induction false} SoFarStep(sh: Shell, f: Splitter, seen: string, executed: seq<string>, all: seq<string>, discard: bool, buf: string)
    requires Separator(seen).CutAt? && sh.parse(Segment(seen)) != OverLimit && all == executed + [Segment(seen)]
    requires sh.execute(all) == Proceeds
    requires (buf, discard) == if sh.parse(Segment(seen)) == BadSyntax then DropLine(seen, false) else (seen[|Segment(seen)|..], false)
    requires Splits(sh, f)
    ensures ByNow(f, false, seen, executed) == ByNow(f, discard, buf, all)
  {
    assert SoFar(sh, false, seen, executed) == SoFar(sh, discard, buf, all);
  }

  /** The first segment that has arrived ends the session. */
  lemma {:induction false} SoFarStops(sh: Shell, f: Splitter, seen: string, executed: seq<string>, o: Outcome)
    requires Splits(sh, f) && Separator(seen).CutAt?
    requires if sh.parse(Segment(seen)) == OverLimit then o == Outcome(executed, LimitExceeded)
             else
               && o.executed == executed + [Segment(seen)] && sh.execute(o.executed) != Proceeds
               && o.result == if sh.execute(o.executed) == Exits then Exited else ExecFailed
    ensures ByNow(f, false, seen, executed) == Progress(o.executed, o.result, false, "")
  {
    assert SoFar(sh, false, seen, executed) == Progress(o.executed, o.result, false, "");
  }

  lemma {:induction false} SoFarDrop(sh: Shell, f: Splitter, seen: string, executed: seq<string>, discard: bool, buf: string)
    requires Splits(sh, f) && (buf, discard) == DropLine(seen, false)
    ensures ByNow(f, true, seen, executed) == ByNow(f, discard, buf, executed)
  {
    assert SoFar(sh, true, seen, executed) == SoFar(sh, discard, buf, executed);
  }

  lemma {:induction false} SoFarMore(sh: Shell, f: Splitter, discard: bool, buf: string, executed: seq<string>, seen: string, chunk: string)
    requires Splits(sh, f) && ByNow(f, false, seen, []) == Progress(executed, OutOfReads, discard, buf)
    ensures ByNow(f, false, seen + chunk, []) == ByNow(f, discard, buf + chunk, executed)
  {
    assert SoFar(sh, false, seen, []) == ByNow(f, false, seen, []);
    SoFarAppend(sh, false, seen, chunk, []);
    assert SoFar(sh, false, seen + chunk, []) == SoFar(sh, discard, buf + chunk, executed);
  }

  // ---------------------------------------------------------------- the streaming loop

  /** A read returns up to n bytes; eof comes with or after the last of them. */
  datatype Read = Read(n: nat, eof: bool) | ReadError

  /** How many of the first r reads hand over bytes as long as there are any. */
  function Productive(chunks: seq<Read>, r: nat): (n: nat)
    requires r <= |chunks|
  {
    if r == 0 then 0
    else Productive(chunks, r - 1) + if chunks[r - 1].Read? && chunks[r - 1].n > 0 then 1 else 0
  }

  /** How many bytes the first r reads bring at most. */
  function Brought(chunks: seq<Read>, r: nat): (n: nat)
    requires r <= |chunks|
  {
    if r == 0 then 0 else Brought(chunks, r - 1) + if chunks[r - 1].Read? then chunks[r - 1].n else 0
  }

  /** No read brings more than fits a line. */
  predicate SmallReads(chunks: seq<Read>)
  {
    forall i :: 0 <= i < |chunks| && chunks[i].Read? ==> chunks[i].n <= MAX_LINE
  }

  /** Read i reports the end, after enough others to deliver n bytes one by one. */
  predicate EndsAt(chunks: seq<Read>, i: nat, n: nat)
    requires i < |chunks|
  {
    chunks[i].Read? && chunks[i].eof && Productive(chunks, i + 1) >= n
  }

  /** No read fails, and the reads deliver n bytes and report the end, however little each of them brings. */
  ghost predicate Arrives(chunks: seq<Read>, n: nat)
  {
    (forall i :: 0 <= i < |chunks| ==> chunks[i].Read?) && exists i: nat :: i < |chunks| && EndsAt(chunks, i, n)
  }

  /** What RunLoop does next: start over, return, or read unless the input has ended. */
  datatype Next = Again | Stop(result: Result) | Wait

  class Session {
    const sh: Shell
    ghost const f: Splitter
    var buf: string
    var discard: bool
    var commands: nat
    var executed: seq<string>
    var unread: string

    constructor (sh: Shell, input: string)
      ensures this.sh == sh && buf == "" && !discard && commands == 0 && executed == [] && unread == input
      ensures Splits(sh, f)
    {
      f := Splitter((rest, executed) => Limited(sh, rest, executed),
                    (discard, seen, executed) => SoFar(sh, discard, seen, executed),
                    (rest, executed) => DropsFit(sh, rest, executed));
      this.sh, buf, discard, commands, executed, unread := sh, "", false, 0, [], input;
    }

    /** The input that is still to be split. */
    function Remaining(): (r: string)
      reads this
    {
      if discard then AfterLine(buf + unread) else buf + unread
    }

    /** What the whole session will have executed if reading goes on. */
    ghost function Future(): (o: Outcome)
      reads this
    {
      InAll(f, Remaining(), executed)
    }

    /** No line that is or will be dropped exceeds the limit. */
    ghost predicate Fit()
      reads this
    {
      (discard ==> LineFits(buf + unread)) && Fitting(f, Remaining(), executed)
    }

    /** What is in the buffer can be told to fit. */
    predicate Bounded()
      reads this
    {
      |buf| <= MAX_LINE || (|buf| == MAX_LINE + 1 && Separator(buf).CutAt?)
    }

    /** What it will have executed when it next has to wait. */
    ghost function Soon(): (p: Progress)
      reads this
    {
      ByNow(f, discard, buf, executed)
    }

    lemma {:induction false} Extends(o: Outcome)
      requires Splits(sh, f) && Future() == o
      ensures executed <= o.executed
      ensures Remaining() == "" ==> o == Outcome(executed, Ended)
    {
      LimitedIsBatch(sh, Remaining(), executed);
      assert Future() == Limited(sh, Remaining(), executed);
    }

    /** The rest of a physical line with a syntax error is dropped as it arrives. */
    method DiscardLine(eof: bool) returns (complete: bool)
      requires discard && (eof ==> unread == "")
      modifies this`buf, this`discard
      ensures Remaining() == old(Remaining())
      ensures (buf, discard) == DropLine(old(buf), eof)
      ensures discard && LineFits(old(buf + unread)) ==> LineFits(buf + unread)
      ensures complete ==> !discard && |buf| < |old(buf)|
      ensures !complete ==> buf == "" && discard == !eof
    {
      var end;
      end, complete := ConsumePhysicalLine(buf);
      ghost var whole := buf;
      if complete {
        AfterLineAt(whole, end - 1);
        assert (whole + unread)[..end - 1] == whole[..end - 1];
        AfterLineAt(whole + unread, end - 1);
        assert (whole + unread)[end..] == whole[end..] + unread;
        buf, discard := buf[end..], false;
      } else {
        AfterLineSplit(whole, unread);
        assert "" + unread == unread;
        if LineFits(whole + unread) {
          LineFitsAfter(whole, unread);
        }
        if eof {
          AfterLineNone(unread);
        }
        buf, discard := "", !eof;
      }
    }

    /** Consume the first segment, with the rest of its physical line after a syntax error. */
    method ConsumeSegment(eof: bool, segment: string)
      requires buf != "" && !discard && (eof ==> unread == "")
      requires segment == Segment(buf) == Segment(buf + unread)
      modifies this`buf, this`discard
      ensures Remaining() == AfterSegment(sh, old(buf + unread))
      ensures |buf| < |old(buf)| && (eof ==> !discard)
      ensures (buf, discard) == if sh.parse(segment) == BadSyntax then DropLine(old(buf), eof) else (old(buf)[|segment|..], false)
      ensures discard && LineFits(old(buf + unread)) ==> LineFits(buf + unread)
    {
      ghost var whole := buf;
      if sh.parse(segment) == BadSyntax {
        discard := true;
        var complete := DiscardLine(eof);
      } else {
        assert (whole + unread)[|segment|..] == whole[|segment|..] + unread;
        buf := buf[|segment|..];
      }
    }

    /** The cutting part of processBufferedInput: nothing to do yet, or one segment executed. */
    method ExecuteFirst(eof: bool) returns (processed: bool, stop: bool, result: Result)
      requires Splits(sh, f) && Bounded() && buf != "" && !discard && (eof ==> unread == "")
      modifies this`buf, this`discard, this`commands, this`executed
      ensures stop ==> Final(result) && result != Ended && old(Future()) == Outcome(executed, result)
      ensures stop && !eof ==> old(Soon()) == Progress(executed, result, false, "")
      ensures !stop ==> Future() == old(Future()) && (old(Fit()) ==> Fit())
      ensures !stop && !eof ==> Soon() == old(Soon())
      ensures processed ==> !stop && |buf| < |old(buf)| && commands == old(commands) + 1
      ensures !processed && !stop ==> commands == old(commands) && !eof && !discard && Separator(buf) == NoCut && buf == old(buf)
    {
      ghost var whole, rest, done := buf, buf + unread, executed;
      processed, stop, result := false, false, Ended;
      var cut := FindCommandSeparator(buf);
      if cut == NoCut && !eof {
        return;
      }
      SegmentStable(buf, unread);
      NotTooWide(buf, unread);
      var segment := if cut.CutAt? then buf[..cut.index + 1] else buf;
      if sh.parse(segment) == OverLimit {
        assert InAll(f, rest, done) == Limited(sh, rest, done);
        if !eof {
          SoFarStops(sh, f, whole, done, Outcome(done, LimitExceeded));
        }
        return false, true, LimitExceeded;
      }
      ConsumeSegment(eof, segment);
      commands, executed := commands + 1, executed + [segment];
      InAllStep(sh, f, rest, done, executed, Remaining());
      if sh.execute(executed) == Proceeds {
        if !eof {
          SoFarStep(sh, f, whole, done, executed, discard, buf);
        }
        return true, false, Ended;
      }
      result := if sh.execute(executed) == Exits then Exited else ExecFailed;
      if !eof {
        SoFarStops(sh, f, whole, done, Outcome(executed, result));
      }
      return false, true, result;
    }

    /** processBufferedInput: drop, cut, execute. A processed step consumes at least one byte. */
    method ProcessBufferedInput(eof: bool) returns (processed: bool, stop: bool, result: Result)
      requires Splits(sh, f) && Bounded() && (eof ==> unread == "")
      modifies this`buf, this`discard, this`commands, this`executed
      ensures stop ==> Final(result) && result != Ended && old(Future()) == Outcome(executed, result)
      ensures stop && !eof ==> old(Soon()) == Progress(executed, result, false, "")
      ensures !stop ==> Future() == old(Future()) && (old(Fit()) ==> Fit())
      ensures !stop && !eof ==> Soon() == old(Soon())
      ensures processed ==> !stop && |buf| < |old(buf)| && commands <= old(commands) + 1
      ensures !processed && !stop ==> commands == old(commands) && (|buf| < |old(buf)| || buf == old(buf))
      ensures !processed && !stop ==> buf == "" || (!eof && !discard && Separator(buf) == NoCut)
    {
      processed, stop, result := false, false, Ended;
      if buf == "" {
        return;
      }
      if discard {
        var complete := DiscardLine(eof);
        if !eof {
          SoFarDrop(sh, f, old(buf), executed, discard, buf);
        }
        if !complete || buf == "" {
          processed := true;
          return;
        }
        processed, stop, result := ExecuteFirst(eof);
      } else {
        processed, stop, result := ExecuteFirst(eof);
      }
    }

    /** The session is on its way to goal. */
    ghost predicate Follows(goal: Outcome, fit: bool, eof: bool)
      reads this
    {
      Future() == goal && (fit ==> Fit()) && (eof ==> unread == "")
    }

    /** The session is where a splitter would be that saw all that has arrived at once. */
    ghost predicate KeepsUp(seen: string)
      reads this
    {
      Soon() == ByNow(f, false, seen, [])
    }

    /** The part of a round of RunLoop before it has to read. */
    method Work(eof: bool, ghost goal: Outcome, ghost fit: bool) returns (next: Next)
      requires Splits(sh, f) && Bounded() && Follows(goal, fit, eof)
      modifies this`buf, this`discard, this`commands, this`executed
      ensures next.Stop? ==> Final(next.result) && next.result != Ended && goal == Outcome(executed, next.result)
      ensures next.Stop? && !eof ==> old(Soon()) == Progress(executed, next.result, false, "")
      ensures !next.Stop? ==> Bounded() && Follows(goal, fit, eof)
      ensures !next.Stop? && !eof ==> Soon() == old(Soon())
      ensures next.Again? ==> |buf| < |old(buf)| || (buf == old(buf) && commands < MAX_COMMANDS <= old(commands))
      ensures next.Wait? ==> buf == "" || (!eof && !discard && Separator(buf) == NoCut)
      ensures next.Wait? ==> executed <= goal.executed && (eof ==> goal == Outcome(executed, Ended))
    {
      if commands < MAX_COMMANDS {
        var processed, stop, result := ProcessBufferedInput(eof);
        if stop {
          return Stop(result);
        }
        Extends(goal);
        return if processed then Again else Wait;
      }
      commands := 0;
      return Again;
    }

    /** A session that waits for input has executed exactly the segments that have arrived. */
    lemma {:induction false} Waits(seen: string)
      requires Splits(sh, f) && KeepsUp(seen) && (buf == "" || (!discard && Separator(buf) == NoCut))
      ensures executed == ByNow(f, false, seen, []).executed
      ensures Soon() == Progress(executed, OutOfReads, discard, buf)
    {
      assert SoFar(sh, discard, buf, executed) == Progress(executed, OutOfReads, discard, buf);
    }

    /**
     readInput: what is read moves from the channel to the buffer, at least one byte if the read hands
     over any and no more than it brings; the end is reported exactly when the channel says so and all
     has been read. It refuses a segment that does not fit, and otherwise only a line that is being
     dropped, does not fit and came in one large read.
     */
    method ReadInput(read: Read, ghost seen: string, ghost goal: Outcome, ghost fit: bool)
      returns (atEof: bool, tooLong: bool, failed: bool, ghost seen': string)
      requires Splits(sh, f) && Follows(goal, fit, false) && KeepsUp(seen) && (buf == "" || (!discard && Separator(buf) == NoCut))
      modifies this`buf, this`unread, this`commands
      ensures Follows(goal, fit, atEof) && KeepsUp(seen') && seen' + unread == seen + old(unread)
      ensures failed ==> read.ReadError?
      ensures read.ReadError? ==> failed || tooLong
      ensures tooLong ==> goal == Outcome(executed, TooLong) || (!fit && read.Read? && read.n > MAX_LINE)
      ensures !tooLong && !failed ==> Bounded()
      ensures !tooLong && read.Read? ==> (atEof <==> read.eof && unread == "")
      ensures |unread| <= |old(unread)| <= |unread| + (if read.Read? then read.n else 0)
      ensures !tooLong && read.Read? && read.n > 0 ==> unread == "" || |unread| < |old(unread)|
    {
      commands := 0;
      atEof, tooLong, failed, seen' := false, false, false, seen;
      if |buf| >= MAX_LINE + 1 {
        tooLong := true;
        FullIsTooWide(buf, unread);
        assert Future() == Limited(sh, Remaining(), executed);
        return;
      }
      if read.ReadError? {
        failed := true;
        return;
      }
      Waits(seen);
      seen' := Receive(read.n, seen);
      atEof := read.eof && unread == "";
      if |buf| > MAX_LINE {
        var cut := FindCommandSeparator(buf);
        if cut == NoCut || cut.index > MAX_LINE {
          tooLong := true;
          Overflows(goal, fit);
        }
      }
    }

    /** A full buffer without a separator: the segment does not fit, or a dropped line does not. */
    lemma {:induction false} Overflows(goal: Outcome, fit: bool)
      requires Splits(sh, f) && |buf| > MAX_LINE && Separator(buf) == NoCut && Future() == goal && (fit ==> Fit())
      ensures !discard ==> goal == Outcome(executed, TooLong)
      ensures discard ==> !fit
    {
      FullIsTooWide(buf, unread);
      assert Future() == Limited(sh, Remaining(), executed);
      if discard && fit {
        FullHoldsLine(buf, unread);
      }
    }

    /** Append what the channel delivers, at most the room that is left in the buffer. */
    method Receive(n: nat, ghost seen: string) returns (ghost seen': string)
      requires Splits(sh, f) && |buf| <= MAX_LINE
      requires KeepsUp(seen) && Soon() == Progress(executed, OutOfReads, discard, buf)
      modifies this`buf, this`unread
      ensures buf + unread == old(buf + unread) && |buf| <= MAX_LINE + 1 && seen' + unread == seen + old(unread)
      ensures |unread| <= |old(unread)| <= |unread| + n && (n > 0 ==> unread == "" || |unread| < |old(unread)|)
      ensures KeepsUp(seen')
    {
      var room := MAX_LINE + 1 - |buf|;
      var k := if n < room then n else room;
      k := if k < |unread| then k else |unread|;
      SoFarMore(sh, f, discard, buf, executed, seen, unread[..k]);
      Moved(buf, unread, k);
      Moved(seen, unread, k);
      seen' := seen + unread[..k];
      buf, unread := buf + unread[..k], unread[k..];
    }
  }

  lemma {:induction false} Moved(a: string, b: string, k: nat)
    requires k <= |b|
    ensures a + b == a + b[..k] + b[k..]
  {
  }

  /** Read i neither failed nor reported the end of n bytes, as it must once all have been delivered. */
  ghost predicate GoesOn(chunks: seq<Read>, i: nat, n: nat)
  {
    i < |chunks| && chunks[i].Read? && !EndsAt(chunks, i, n)
  }

  /** After r reads, none of which failed: how much may still be unread, and whether the last one reported the end. */
  ghost predicate ReadsDone(chunks: seq<Read>, r: nat, eof: bool, total: nat, left: nat)
  {
    && r <= |chunks| && left <= total
    && (left == 0 || Productive(chunks, r) <= total - left)
    && (forall i: nat :: i < (if eof then r - 1 else r) ==> GoesOn(chunks, i, total))
    && (eof ==> r > 0 && chunks[r - 1].Read? && chunks[r - 1].eof)
  }

  lemma {:induction false} NoReads(chunks: seq<Read>, total: nat)
    ensures ReadsDone(chunks, 0, false, total, total)
  {
  }

  lemma {:induction false} ReadMore(chunks: seq<Read>, r: nat, total: nat, left: nat, eof: bool, now: nat)
    requires ReadsDone(chunks, r, false, total, left) && r < |chunks| && chunks[r].Read? && now <= left
    requires eof <==> chunks[r].eof && now == 0
    requires chunks[r].n > 0 ==> now == 0 || now < left
    ensures ReadsDone(chunks, r + 1, eof, total, now)
  {
  }

  /** No more than k bytes have arrived with the first r reads than they brought. */
  ghost predicate WithinReads(chunks: seq<Read>, r: nat, k: nat)
  {
    r <= |chunks| && k <= Brought(chunks, r)
  }

  lemma {:induction false} WithinMore(chunks: seq<Read>, r: nat, k: nat, more: nat)
    requires WithinReads(chunks, r, k) && r < |chunks| && more <= if chunks[r].Read? then chunks[r].n else 0
    ensures WithinReads(chunks, r + 1, k + more)
  {
  }

  /** The loop returned after r reads, when k of n bytes had arrived; eof if the last of them reported the end. */
  ghost predicate ReturnedAfter(chunks: seq<Read>, result: Result, n: nat, k: nat, r: nat, eof: bool)
  {
    && k <= n && WithinReads(chunks, r, k) && ReadsDone(chunks, r, eof, n, n - k)
    && (eof ==> k == n) && (!eof ==> StopsEarly(chunks, result, r))
  }

  /** What can end the loop before the end of input: the session itself, or the reads after the first r. */
  predicate StopsEarly(chunks: seq<Read>, result: Result, r: nat)
  {
    match result
    case Ended => false
    case OutOfReads => r == |chunks|
    case ReadFailed => r < |chunks| && chunks[r].ReadError?
    case TooLong => r < |chunks|
    case _ => true
  }

  /** The result of a splitter that waits for input when the session stops for another reason. */
  function Own(result: Result): (r: Result)
  {
    if result == TooLong || result == ReadFailed then OutOfReads else result
  }

  ghost predicate ReturnedBy(f: Splitter, input: string, chunks: seq<Read>, o: Outcome, k: nat, r: nat, eof: bool)
  {
    && ReturnedAfter(chunks, o.result, |input|, k, r, eof)
    && if eof then o == InAll(f, input, [])
       else
         var p := ByNow(f, false, input[..k], []);
         o.executed == p.executed && Own(o.result) == p.result
  }

  /**
   Why the loop returned what it did: after the end of input, all of it was split; before, exactly the
   segments complete in the bytes that had arrived were executed.
   */
  ghost predicate Returned(sh: Shell, input: string, chunks: seq<Read>, o: Outcome, k: nat, r: nat, eof: bool)
  {
    && ReturnedAfter(chunks, o.result, |input|, k, r, eof)
    && if eof then o == Limited(sh, input, [])
       else
         var p := SoFar(sh, false, input[..k], []);
         o.executed == p.executed && Own(o.result) == p.result
  }

  ghost predicate Explained(f: Splitter, input: string, chunks: seq<Read>, o: Outcome)
  {
    exists k, r, eof :: ReturnedBy(f, input, chunks, o, k, r, eof)
  }

  lemma {:induction false} ReturnsEarly(f: Splitter, input: string, seen: string, unread: string, chunks: seq<Read>, o: Outcome, r: nat, p: Progress)
    requires input == seen + unread && WithinReads(chunks, r, |seen|) && ReadsDone(chunks, r, false, |input|, |unread|)
    requires p == ByNow(f, false, seen, []) && o.executed == p.executed && Own(o.result) == p.result && StopsEarly(chunks, o.result, r)
    ensures Explained(f, input, chunks, o)
  {
    assert input[..|seen|] == seen;
    assert ReturnedBy(f, input, chunks, o, |seen|, r, false);
  }

  lemma {:induction false} ReturnsAtEnd(f: Splitter, input: string, chunks: seq<Read>, o: Outcome, r: nat)
    requires WithinReads(chunks, r, |input|) && ReadsDone(chunks, r, true, |input|, 0) && o == InAll(f, input, [])
    ensures Explained(f, input, chunks, o)
  {
    assert ReturnedBy(f, input, chunks, o, |input|, r, true);
  }

  lemma {:induction false} Settled(f: Splitter, input: string, seen: string, unread: string, chunks: seq<Read>, o: Outcome, r: nat,
                                   p: Progress, eof: bool)
    requires input == seen + unread && WithinReads(chunks, r, |seen|) && ReadsDone(chunks, r, eof, |input|, |unread|) && Final(o.result)
    requires if eof then unread == "" && o == InAll(f, input, [])
             else p == ByNow(f, false, seen, []) && p == Progress(o.executed, o.result, false, "") && o.result != Ended
    ensures Explained(f, input, chunks, o)
  {
    if eof {
      assert input == seen;
      ReturnsAtEnd(f, input, chunks, o, r);
    } else {
      ReturnsEarly(f, input, seen, unread, chunks, o, r, p);
    }
  }

  lemma {:induction false} Explains(sh: Shell, f: Splitter, input: string, chunks: seq<Read>, o: Outcome)
    requires Splits(sh, f) && Explained(f, input, chunks, o)
    ensures exists k, r, eof :: Returned(sh, input, chunks, o, k, r, eof)
    ensures o.result == OutOfReads || o.result == ReadFailed ==> !Arrives(chunks, |input|)
  {
    var k: nat, r: nat, eof :| ReturnedBy(f, input, chunks, o, k, r, eof);
    assert SoFar(sh, false, input[..k], []) == ByNow(f, false, input[..k], []);
    assert Limited(sh, input, []) == InAll(f, input, []);
    LimitedIsBatch(sh, input, []);
    BatchEnds(sh, input, []);
    assert Returned(sh, input, chunks, o, k, r, eof);
    if o.result == OutOfReads || o.result == ReadFailed {
      NotDelivered(chunks, o.result, |input|, k, r);
    }
  }

  /** A loop that gave up for want of input had not been delivered all of it. */
  lemma {:induction false} NotDelivered(chunks: seq<Read>, result: Result, n: nat, k: nat, r: nat)
    requires ReturnedAfter(chunks, result, n, k, r, false) && (result == OutOfReads || result == ReadFailed)
    ensures !Arrives(chunks, n)
  {
    if result == OutOfReads {
      forall i: nat | i < |chunks|
        ensures !EndsAt(chunks, i, n)
      {
        assert GoesOn(chunks, i, n);
      }
    }
  }

  /** The reading part of a round: the next read, or the reason to stop. */
  method Fetch(s: Session, input: string, chunks: seq<Read>, r: nat, ghost seen: string, ghost goal: Outcome, ghost fit: bool)
    returns (atEof: bool, o: Outcome, ghost seen': string)
    requires Splits(s.sh, s.f) && s.Follows(goal, fit, false) && s.KeepsUp(seen) && input == seen + s.unread
    requires s.buf == "" || (!s.discard && Separator(s.buf) == NoCut)
    requires ReadsDone(chunks, r, false, |input|, |s.unread|) && WithinReads(chunks, r, |seen|)
    modifies s`buf, s`unread, s`commands
    ensures o.executed == s.executed && (o.result == Ended || !Final(o.result))
    ensures o.result == Ended ==> r < |chunks| && ReadsDone(chunks, r + 1, atEof, |input|, |s.unread|) && WithinReads(chunks, r + 1, |seen'|)
    ensures o.result == Ended ==> s.Bounded() && s.Follows(goal, fit, atEof) && s.KeepsUp(seen') && input == seen' + s.unread
    ensures o.result != Ended ==> Explained(s.f, input, chunks, o)
    ensures o.result == TooLong ==> o == goal || (!fit && !SmallReads(chunks))
  {
    s.Waits(seen);
    ghost var unread := s.unread;
    atEof, o, seen' := false, Outcome(s.executed, OutOfReads), seen;
    ghost var p := s.Soon();
    if r == |chunks| {
      ReturnsEarly(s.f, input, seen, unread, chunks, o, r, p);
      return;
    }
    var tooLong, failed;
    atEof, tooLong, failed, seen' := s.ReadInput(chunks[r], seen, goal, fit);
    o := Outcome(s.executed, if failed then ReadFailed else if tooLong then TooLong else Ended);
    if failed || tooLong {
      ReturnsEarly(s.f, input, seen, unread, chunks, o, r, p);
    } else {
      ReadMore(chunks, r, |input|, |unread|, atEof, |s.unread|);
      WithinMore(chunks, r, |seen|, |unread| - |s.unread|);
    }
  }

  /** The loop of RunLoop, on a new session. */
  method Loop(s: Session, input: string, chunks: seq<Read>, ghost goal: Outcome, ghost fit: bool) returns (o: Outcome)
    requires Splits(s.sh, s.f) && s.Bounded() && s.Follows(goal, fit, false) && s.KeepsUp("") && s.unread == input
    requires goal == InAll(s.f, input, [])
    modifies s
    ensures Final(o.result) ==> o == goal
    ensures o.executed <= goal.executed
    ensures Explained(s.f, input, chunks, o)
    ensures o.result == TooLong ==> o == goal || (!fit && !SmallReads(chunks))
  {
    var eof, r := false, 0;
    ghost var seen := "";
    NoReads(chunks, |input|);
    while true
      invariant s.Bounded() && s.Follows(goal, fit, eof) && (eof || s.KeepsUp(seen))
      invariant input == seen + s.unread && ReadsDone(chunks, r, eof, |input|, |s.unread|) && WithinReads(chunks, r, |seen|)
      decreases |chunks| - r, |s.buf|, if s.commands >= MAX_COMMANDS then 1 else 0
    {
      ghost var p := s.Soon();
      var next := s.Work(eof, goal, fit);
      if next.Again? {
        continue;
      }
      if next.Stop? || eof {
        o := Outcome(s.executed, if next.Stop? then next.result else Ended);
        Settled(s.f, input, seen, s.unread, chunks, o, r, p, eof);
        return;
      }
      eof, o, seen := Fetch(s, input, chunks, r, seen, goal, fit);
      if o.result != Ended {
        return;
      }
      r := r + 1;
    }
  }

  /**
   RunLoop, without prompts and cancellation. If the reads deliver the input, the session does exactly
   what the splitter with the line limit does, however the input was chunked, as long as no read brings
   more than a line or no dropped line is overlong; if all lines fit, this is the batch splitter. For
   every outcome there is a reason: it is the splitter's on all of the input after its end, and before
   that on the bytes that had arrived, which are no more than the reads brought.
   */
  method RunLoop(sh: Shell, input: string, chunks: seq<Read>) returns (o: Outcome)
    ensures Arrives(chunks, |input|) && (SmallReads(chunks) || DropsFit(sh, input, [])) ==> o == Limited(sh, input, [])
    ensures Arrives(chunks, |input|) && LinesFit(input) ==> o == Batch(sh, input, [])
    ensures Final(o.result) ==> o == Batch(sh, input, [])
    ensures o.result == TooLong ==> o == Limited(sh, input, []) || (!SmallReads(chunks) && !DropsFit(sh, input, []))
    ensures o.executed <= Limited(sh, input, []).executed
    ensures exists k, r, eof :: Returned(sh, input, chunks, o, k, r, eof)
    ensures o.result == OutOfReads || o.result == ReadFailed ==> !Arrives(chunks, |input|)
  {
    var s := new Session(sh, input);
    ghost var goal, fit := Limited(sh, input, []), DropsFit(sh, input, []);
    assert "" + input == input;
    assert s.Future() == goal;
    o := Loop(s, input, chunks, goal, fit);
    LimitedIsBatch(sh, input, []);
    if LinesFit(input) {
      LinesFitAll(sh, input, []);
    }
    Explains(sh, s.f, input, chunks, o);
  }
}
