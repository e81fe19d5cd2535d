/**
 Fake absolute paths of the shell (modules/fakeshell/cmds/path.go). path.Clean appears only behind
 the rejection of ".." segments, where it drops empty and "." segments.
 */
module ShellPath {
  import opened Paths

  datatype Resolution = Resolved(path: string) | BadCharacter | DotDot

  predicate ValidChar(c: char)
  {
    ' ' <= c && c != '\U{007F}' && c != '\\' && c != ':'
  }

  predicate ValidChars(s: string)
  {
    forall i :: 0 <= i < |s| ==> ValidChar(s[i])
  }

  function JoinPosix(cwd: string, arg: string): (s: string)
  {
    var base := if cwd == "" then "/" else cwd;
    if base[|base| - 1] == '/' then base + arg else base + "/" + arg
  }

  /** The segments that path.Clean keeps. */
  function Kept(segments: seq<string>): (k: seq<string>)
  {
    if segments == [] then []
    else (if segments[0] == "" || segments[0] == "." then [] else [segments[0]]) + Kept(segments[1..])
  }

  predicate Absolute(arg: string)
  {
    arg != "" && arg[0] == '/'
  }

  function Joined(cwd: string, arg: string): (s: string)
  {
    if Absolute(arg) then arg else JoinPosix(cwd, arg)
  }

  function ResolvePath(cwd: string, arg: string): (r: Resolution)
  {
    if !ValidChars(arg) then BadCharacter
    else if ".." in Split(Joined(cwd, arg)) then DotDot
    else Resolved("/" + Join(Kept(Split(Joined(cwd, arg)))))
  }

  // ---------------------------------------------------------------- canonical paths

  predicate IsName(segment: string)
  {
    segment != "" && segment != "." && segment != ".." && NoSlash(segment)
  }

  ghost predicate Names(segments: seq<string>)
  {
    forall i :: 0 <= i < |segments| ==> IsName(segments[i])
  }

  /** Absolute, and with proper names between single slashes. */
  ghost predicate Canonical(p: string)
  {
    p != "" && p[0] == '/' && (p == "/" || Names(Split(p[1..])))
  }

  /** What ResolvePath can return for a valid working directory, and what cd can have stored in PWD. */
  ghost predicate FakePath(p: string)
  {
    Canonical(p) && ValidChars(p)
  }

  lemma {:induction false} KeptNames(segments: seq<string>)
    requires NoSlashes(segments) && ".." !in segments
    ensures Names(Kept(segments))
  {
    if segments != [] {
      KeptNames(segments[1..]);
    }
  }

  lemma {:induction false} KeptAll(segments: seq<string>)
    requires Names(segments)
    ensures Kept(segments) == segments
  {
    if segments != [] {
      KeptAll(segments[1..]);
    }
  }

  lemma {:induction false} KeptFrom(segments: seq<string>, i: nat)
    requires i < |Kept(segments)|
    ensures Kept(segments)[i] in segments
  {
    if segments[0] == "" || segments[0] == "." {
      KeptFrom(segments[1..], i);
    } else if i > 0 {
      KeptFrom(segments[1..], i - 1);
    }
  }

  lemma {:induction false} JoinCanonical(names: seq<string>)
    requires Names(names)
    ensures Canonical("/" + Join(names))
  {
    assert ("/" + Join(names))[1..] == Join(names);
    if names != [] {
      SplitJoin(names);
    }
  }

  lemma {:induction false} ResolvedIsCanonical(cwd: string, arg: string)
    requires ResolvePath(cwd, arg).Resolved?
    ensures Canonical(ResolvePath(cwd, arg).path)
  {
    var segments := Split(Joined(cwd, arg));
    SplitNoSlash(Joined(cwd, arg));
    KeptNames(segments);
    JoinCanonical(Kept(segments));
  }

  lemma {:induction false} CanonicalSegments(p: string)
    requires Canonical(p)
    ensures ".." !in Split(p) && "/" + Join(Kept(Split(p))) == p
  {
    assert p == "" + "/" + p[1..];
    SplitSlash("", p[1..]);
    var tail := Split(p[1..]);
    assert Split(p)[1..] == tail;
    if p == "/" {
      assert tail == [""] && Kept(tail) == [];
    } else {
      KeptAll(tail);
      JoinSplit(p[1..]);
      assert [] + tail == tail;
      assert "/" + p[1..] == p;
    }
  }

  /** A canonical path with valid characters resolves to itself, from anywhere. */
  lemma {:induction false} ResolveFixed(cwd: string, p: string)
    requires Canonical(p)
    ensures ResolvePath(cwd, p) == Resolved(p) <==> ValidChars(p)
  {
    CanonicalSegments(p);
  }

  lemma {:induction false} SegmentCharIn(s: string, segment: string, c: char)
    requires segment in Split(s) && c in segment && c != '/'
    ensures c in s
  {
    var i :| 0 <= i < |Split(s)| && Split(s)[i] == segment;
    SegmentChars(Split(s), c);
    JoinSplit(s);
  }

  lemma {:induction false} JoinedChars(cwd: string, arg: string)
    requires ValidChars(arg) && ValidChars(cwd)
    ensures ValidChars(Joined(cwd, arg))
  {
  }

  lemma {:induction false} ResolvedChars(s: string)
    requires ValidChars(s)
    ensures ValidChars("/" + Join(Kept(Split(s))))
  {
    var r := "/" + Join(Kept(Split(s)));
    forall j | 0 <= j < |r|
      ensures ValidChar(r[j])
    {
      if r[j] != '/' {
        assert r[j] in Join(Kept(Split(s)));
        SegmentChars(Kept(Split(s)), r[j]);
        var i :| 0 <= i < |Kept(Split(s))| && r[j] in Kept(Split(s))[i];
        KeptFrom(Split(s), i);
        SegmentCharIn(s, Kept(Split(s))[i], r[j]);
      }
    }
  }

  /** Every segment with a bad character is kept, so the character is in the result. */
  lemma {:induction false} KeptChar(segments: seq<string>, i: nat, c: char)
    requires i < |segments| && c in segments[i] && c != '.'
    ensures exists j :: 0 <= j < |Kept(segments)| && c in Kept(segments)[j]
    decreases |segments|
  {
    var rest := Kept(segments[1..]);
    if i == 0 {
      assert c in Kept(segments)[0];
    } else {
      KeptChar(segments[1..], i - 1, c);
      var j :| 0 <= j < |rest| && c in rest[j];
      assert Kept(segments)[|Kept(segments)| - |rest| + j] == rest[j];
    }
  }

  lemma {:induction false} CharOfSegment(s: string, c: char)
    requires c in s && c != '/'
    ensures exists i :: 0 <= i < |Split(s)| && c in Split(s)[i]
  {
    JoinSplit(s);
    SegmentChars(Split(s), c);
  }

  lemma {:induction false} JoinedSegments(cwd: string, arg: string)
    requires cwd != ""
    ensures Split(if cwd[|cwd| - 1] == '/' then cwd[..|cwd| - 1] else cwd) <= Split(JoinPosix(cwd, arg))
  {
    if cwd[|cwd| - 1] == '/' {
      assert cwd + arg == cwd[..|cwd| - 1] + "/" + arg;
      SplitAppend(cwd[..|cwd| - 1], arg);
    } else {
      SplitAppend(cwd, arg);
    }
  }

  lemma {:induction false} BadCharKept(segments: seq<string>, i: nat, c: char)
    requires i < |segments| && c in segments[i] && !ValidChar(c)
    ensures !ValidChars("/" + Join(Kept(segments)))
  {
    KeptChar(segments, i, c);
    SegmentChars(Kept(segments), c);
    var r := Join(Kept(segments));
    var m :| 0 <= m < |r| && r[m] == c;
    assert ("/" + r)[m + 1] == c;
  }

  /** A bad character of the working directory shows up in every path resolved from it. */
  lemma {:induction false} BadCharShows(cwd: string, arg: string)
    requires !ValidChars(cwd)
    ensures !ValidChars("/" + Join(Kept(Split(JoinPosix(cwd, arg)))))
  {
    var k :| 0 <= k < |cwd| && !ValidChar(cwd[k]);
    var c, base := cwd[k], if cwd[|cwd| - 1] == '/' then cwd[..|cwd| - 1] else cwd;
    assert base[k] == c;
    CharOfSegment(base, c);
    var i :| 0 <= i < |Split(base)| && c in Split(base)[i];
    JoinedSegments(cwd, arg);
    BadCharKept(Split(JoinPosix(cwd, arg)), i, c);
  }

  /** The characters of a resolved path are valid exactly when it does not depend on a bad working directory. */
  lemma {:induction false} ResolvedValid(cwd: string, arg: string)
    requires ResolvePath(cwd, arg).Resolved?
    ensures ValidChars(ResolvePath(cwd, arg).path) <==> Absolute(arg) || ValidChars(cwd)
  {
    if Absolute(arg) || ValidChars(cwd) {
      if !Absolute(arg) {
        JoinedChars(cwd, arg);
      }
      ResolvedChars(Joined(cwd, arg));
    } else {
      BadCharShows(cwd, arg);
    }
  }

  /**
   Resolving again gives the same path exactly when the argument was absolute or the working directory
   has only valid characters, and is refused otherwise; the source does not check the working directory.
   */
  lemma {:induction false} ResolveTwice(cwd: string, arg: string)
    requires ResolvePath(cwd, arg).Resolved?
    ensures var p := ResolvePath(cwd, arg).path;
            && ResolvePath("/", p) == (if Absolute(arg) || ValidChars(cwd) then Resolved(p) else BadCharacter)
            && (ValidChars(p) <==> Absolute(arg) || ValidChars(cwd))
            && (Absolute(arg) || ValidChars(cwd) ==> FakePath(p))
  {
    ResolvedIsCanonical(cwd, arg);
    ResolveFixed("/", ResolvePath(cwd, arg).path);
    ResolvedValid(cwd, arg);
  }

  /**
   So every working directory with a bad character, which no cd could have stored but an assignment
   to PWD can, gives paths that are refused the second time; the empty argument always is one.
   */
  lemma {:induction false} BadWorkingDirectory(cwd: string, arg: string)
    requires !ValidChars(cwd) && ".." !in Split(cwd)
    ensures ResolvePath(cwd, "").Resolved?
    ensures !Absolute(arg) && ResolvePath(cwd, arg).Resolved? ==> ResolvePath("/", ResolvePath(cwd, arg).path) == BadCharacter
  {
    SplitAppend(cwd, "");
    assert Split("") == [""] && cwd + "" == cwd;
    if !Absolute(arg) && ResolvePath(cwd, arg).Resolved? {
      ResolveTwice(cwd, arg);
    }
  }
}
