/** Slash-separated paths as sequences of segments (strings.Split and strings.Join on "/"). */
module Paths {
  /** The parts between slashes; the empty string has one empty part. */
  function Split(s: string): (segments: seq<string>)
    ensures |segments| >= 1
  {
    if s == "" then [""]
    else
      var tail := Split(s[1..]);
      if s[0] == '/' then [""] + tail else [[s[0]] + tail[0]] + tail[1..]
  }

  function Join(segments: seq<string>): (s: string)
  {
    if segments == [] then "" else if |segments| == 1 then segments[0] else segments[0] + "/" + Join(segments[1..])
  }

  predicate NoSlash(s: string)
  {
    '/' !in s
  }

  ghost predicate NoSlashes(segments: seq<string>)
  {
    forall i :: 0 <= i < |segments| ==> NoSlash(segments[i])
  }

  lemma {:induction false} SplitNoSlash(s: string)
    ensures NoSlashes(Split(s))
  {
    if s != "" {
      SplitNoSlash(s[1..]);
    }
  }

  /** A slash-free prefix becomes the first segment. */
  lemma {:induction false} SplitPrefix(a: string, s: string)
    requires NoSlash(a)
    ensures Split(a + s) == [a + Split(s)[0]] + Split(s)[1..]
  {
    if a == "" {
      assert a + s == s && a + Split(s)[0] == Split(s)[0];
    } else {
      assert (a + s)[1..] == a[1..] + s;
      SplitPrefix(a[1..], s);
      assert [a[0]] + (a[1..] + Split(s)[0]) == a + Split(s)[0];
    }
  }

  lemma {:induction false} SplitSlash(a: string, s: string)
    requires NoSlash(a)
    ensures Split(a + "/" + s) == [a] + Split(s)
  {
    assert a + "/" + s == a + ("/" + s);
    assert ("/" + s)[1..] == s;
    SplitPrefix(a, "/" + s);
    assert a + "" == a;
  }

  lemma {:induction false} SplitWhole(a: string)
    requires NoSlash(a)
    ensures Split(a) == [a]
  {
    assert a + "" == a;
    SplitPrefix(a, "");
  }

  /** Joining slash-free segments and splitting again gives them back. */
  lemma {:induction false} SplitJoin(segments: seq<string>)
    requires segments != [] && NoSlashes(segments)
    ensures Split(Join(segments)) == segments
    decreases |segments|
  {
    if |segments| == 1 {
      SplitWhole(segments[0]);
    } else {
      SplitJoin(segments[1..]);
      SplitSlash(segments[0], Join(segments[1..]));
    }
  }

  lemma {:induction false} JoinSplit(s: string)
    ensures Join(Split(s)) == s
  {
    if s != "" {
      JoinSplit(s[1..]);
      var tail := Split(s[1..]);
      assert s == [s[0]] + s[1..];
      if s[0] != '/' {
        assert ([[s[0]] + tail[0]] + tail[1..])[1..] == tail[1..];
      }
    }
  }

  lemma {:induction false} SplitHead(c: char, t: seq<string>, u: seq<string>)
    requires t != []
    ensures [""] + (t + u) == [""] + t + u
    ensures [[c] + (t + u)[0]] + (t + u)[1..] == [[c] + t[0]] + t[1..] + u
  {
  }

  /** Splitting a concatenation at a slash splits the parts. */
  lemma {:induction false} SplitAppend(a: string, b: string)
    ensures Split(a + "/" + b) == Split(a) + Split(b)
    decreases |a|
  {
    if a == "" {
      assert a + "/" + b == "/" + b && ("/" + b)[1..] == b;
    } else {
      SplitAppend(a[1..], b);
      assert (a + "/" + b)[1..] == a[1..] + "/" + b;
      SplitHead(a[0], Split(a[1..]), Split(b));
    }
  }

  /** Every segment is made of characters of the whole, and the whole of theirs and slashes. */
  lemma {:induction false} SegmentChars(segments: seq<string>, c: char)
    requires c != '/'
    ensures c in Join(segments) <==> exists i :: 0 <= i < |segments| && c in segments[i]
    decreases |segments|
  {
    if |segments| > 1 {
      SegmentChars(segments[1..], c);
      var tail := segments[1..];
      assert forall i :: 1 <= i < |segments| ==> segments[i] == tail[i - 1];
      if c in Join(tail) {
        var i :| 0 <= i < |tail| && c in tail[i];
        assert c in segments[i + 1];
      }
    } else if |segments| == 1 {
      assert c in Join(segments) ==> c in segments[0];
    }
  }
}
