/**
 Certificate option maps (third/ssh/certs.go): serialized as (name, data) pairs in lexical order of
 the names, where non-empty data holds a string with a length prefix of its own.
 */
module Certs {
  import opened Bytes
  import opened Mpint

  type str = seq<byte>

  datatype Result = Ok(tups: map<str, str>) | ShortRead | NotInOrder | TrailingData

  // ---------------------------------------------------------------- Go's order on strings

  predicate Less(a: str, b: str)
  {
    b != [] && (a == [] || a[0] < b[0] || (a[0] == b[0] && Less(a[1..], b[1..])))
  }

  lemma {:induction false} LessTransitive(a: str, b: str, c: str)
    requires Less(a, b) && Less(b, c)
    ensures Less(a, c)
  {
    if a != [] && a[0] == b[0] && b[0] == c[0] {
      LessTransitive(a[1..], b[1..], c[1..]);
    }
  }

  lemma {:induction false} LessTotal(a: str, b: str)
    ensures Less(a, b) || Less(b, a) || a == b
  {
    if a != [] && b != [] && a[0] == b[0] {
      LessTotal(a[1..], b[1..]);
      if a[1..] == b[1..] {
        assert a == [a[0]] + a[1..] && b == [b[0]] + b[1..];
      }
    }
  }

  lemma {:induction false} LessIrreflexive(a: str)
    ensures !Less(a, a)
  {
    if a != [] {
      LessIrreflexive(a[1..]);
    }
  }

  predicate Sorted(keys: seq<str>)
  {
    forall i, j :: 0 <= i < j < |keys| ==> Less(keys[i], keys[j])
  }

  function KeySet(keys: seq<str>): (s: set<str>)
  {
    set k | k in keys
  }

  /** Place k among keys sorted so far. */
  function Insert(k: str, keys: seq<str>): (r: seq<str>)
    requires Sorted(keys) && k !in keys
    ensures Sorted(r) && KeySet(r) == KeySet(keys) + {k}
  {
    if keys == [] then [k]
    else
      LessTotal(k, keys[0]);
      if Less(k, keys[0]) then
        InFront(k, keys);
        [k] + keys
      else
        var r := Insert(k, keys[1..]);
        BehindFirst(keys, k, r);
        [keys[0]] + r
  }

  lemma {:induction false} InFront(k: str, keys: seq<str>)
    requires Sorted(keys) && keys != [] && Less(k, keys[0])
    ensures Sorted([k] + keys) && KeySet([k] + keys) == KeySet(keys) + {k}
  {
    var r := [k] + keys;
    forall j | 0 < j < |r| ensures Less(k, r[j]) {
      if j > 1 { LessTransitive(k, keys[0], keys[j - 1]); }
    }
  }

  lemma {:induction false} BehindFirst(keys: seq<str>, k: str, r: seq<str>)
    requires Sorted(keys) && keys != [] && Less(keys[0], k)
    requires Sorted(r) && KeySet(r) == KeySet(keys[1..]) + {k}
    ensures Sorted([keys[0]] + r) && KeySet([keys[0]] + r) == KeySet(keys) + {k}
  {
    var all := [keys[0]] + r;
    forall j | 0 < j < |all| ensures Less(all[0], all[j]) {
      assert r[j - 1] in KeySet(r);
    }
    forall x ensures x in KeySet(all) <==> x in KeySet(keys) + {k} {
      assert x in KeySet(keys) <==> x == keys[0] || x in KeySet(keys[1..]);
      assert x in KeySet(all) <==> x == keys[0] || x in KeySet(r);
    }
  }

  // ---------------------------------------------------------------- encoding

  /** One optionsTuple: the name, and the value wrapped twice unless it is empty. */
  function EncodeTuple(key: str, value: str): (out: seq<byte>)
  {
    EncodeString(key) + EncodeString(if value == [] then [] else EncodeString(value))
  }

  function EncodeTuples(keys: seq<str>, tups: map<str, str>): (out: seq<byte>)
    requires forall k :: k in keys ==> k in tups
  {
    if keys == [] then [] else EncodeTuple(keys[0], tups[keys[0]]) + EncodeTuples(keys[1..], tups)
  }

  /** Collect the names of a map in any order and sort them. */
  method SortedKeys(tups: map<str, str>) returns (sorted: seq<str>)
    ensures Sorted(sorted) && KeySet(sorted) == tups.Keys
  {
    var left := tups.Keys;
    sorted := [];
    while left != {}
      invariant Sorted(sorted)
      invariant KeySet(sorted) + left == tups.Keys && KeySet(sorted) !! left
      decreases |left|
    {
      var k :| k in left;
      assert k in sorted ==> k in KeySet(sorted);
      sorted := Insert(k, sorted);
      left := left - {k};
    }
  }

  /** The names of a map in order; there is only one such list. */
  ghost predicate KeysOf(keys: seq<str>, tups: map<str, str>)
  {
    Sorted(keys) && KeySet(keys) == tups.Keys && forall k :: k in keys ==> k in tups
  }

  /** The loop of marshalTuples over the sorted names. */
  method EncodeInOrder(sorted: seq<str>, tups: map<str, str>) returns (out: seq<byte>)
    requires forall k :: k in sorted ==> k in tups
    ensures out == EncodeTuples(sorted, tups)
  {
    out := [];
    assert sorted[0..] == sorted;
    for i := 0 to |sorted|
      invariant out + EncodeTuples(sorted[i..], tups) == EncodeTuples(sorted, tups)
    {
      assert sorted[i..][0] == sorted[i] && sorted[i..][1..] == sorted[i + 1..];
      out := out + EncodeTuple(sorted[i], tups[sorted[i]]);
    }
    assert out + [] == out;
  }

  /** marshalTuples: canonical, and parsed back to the same map. */
  method MarshalTuples(tups: map<str, str>) returns (out: seq<byte>)
    ensures forall keys :: KeysOf(keys, tups) ==> out == EncodeTuples(keys, tups)
    ensures |out| < B32 ==> ParseFrom(out, None, map[]) == Ok(tups)
  {
    var sorted := SortedKeys(tups);
    assert forall k :: k in sorted ==> k in KeySet(sorted);
    out := EncodeInOrder(sorted, tups);
    forall keys | KeysOf(keys, tups)
      ensures out == EncodeTuples(keys, tups)
    {
      SortedUnique(keys, sorted);
    }
    if |out| < B32 {
      TuplesRoundTrip(tups, sorted);
    }
  }

  // ---------------------------------------------------------------- decoding

  /** One round of parseTuples: a name after `last`, its value and the rest. */
  function ParseTuple(input: seq<byte>, last: Option<str>): (r: (Result, str, str, seq<byte>))
    ensures r.0.Ok? ==> |r.3| < |input|
  {
    var k := ParseString(input);
    if k.None? then (ShortRead, [], [], [])
    else if last.Some? && !Less(last.value, k.value.0) then (NotInOrder, [], [], [])
    else
      var v := ParseString(k.value.1);
      if v.None? then (ShortRead, [], [], [])
      else if v.value.0 == [] then (Ok(map[]), k.value.0, [], v.value.1)
      else
        var w := ParseString(v.value.0);
        if w.None? then (ShortRead, [], [], [])
        else if w.value.1 != [] then (TrailingData, [], [], [])
        else (Ok(map[]), k.value.0, w.value.0, v.value.1)
  }

  function ParseFrom(input: seq<byte>, last: Option<str>, tups: map<str, str>): (r: Result)
    decreases |input|
  {
    if input == [] then Ok(tups)
    else
      var (status, key, value, rest) := ParseTuple(input, last);
      if !status.Ok? then status else ParseFrom(rest, Some(key), tups[key := value])
  }

  method ParseTuples(input: seq<byte>) returns (r: Result)
    ensures r == ParseFrom(input, None, map[])
  {
    var tups: map<str, str> := map[];
    var last: Option<str> := None;
    var rest := input;
    while |rest| > 0
      invariant ParseFrom(rest, last, tups) == ParseFrom(input, None, map[])
      decreases |rest|
    {
      var (status, key, value, next) := ParseTuple(rest, last);
      if !status.Ok? {
        return status;
      }
      tups, last, rest := tups[key := value], Some(key), next;
    }
    return Ok(tups);
  }

  /** The three nested strings of a tuple, once each parses. */
  lemma {:induction false} ParsedTuple(input: seq<byte>, last: Option<str>, key: str, more: seq<byte>, data: str, rest: seq<byte>, value: str)
    requires ParseString(input) == Some((key, more)) && ParseString(more) == Some((data, rest))
    requires last.Some? ==> Less(last.value, key)
    requires if data == [] then value == [] else ParseString(data) == Some((value, []))
    ensures ParseTuple(input, last) == (Ok(map[]), key, value, rest)
  {
  }

  lemma {:induction false} TupleParts(key: str, value: str, rest: seq<byte>, data: str)
    requires data == if value == [] then [] else EncodeString(value)
    ensures EncodeTuple(key, value) + rest == EncodeString(key) + (EncodeString(data) + rest)
  {
  }

  lemma {:induction false} ParseEncodedTuple(key: str, value: str, rest: seq<byte>, last: Option<str>)
    requires |EncodeTuple(key, value) + rest| < B32
    requires last.Some? ==> Less(last.value, key)
    ensures ParseTuple(EncodeTuple(key, value) + rest, last) == (Ok(map[]), key, value, rest)
  {
    var data := if value == [] then [] else EncodeString(value);
    var more := EncodeString(data) + rest;
    TupleParts(key, value, rest, data);
    ParseShortString(key, more);
    ParseShortString(data, rest);
    if value != [] {
      ParseShortString(value, []);
      assert EncodeString(value) + [] == data;
    }
    ParsedTuple(EncodeTuple(key, value) + rest, last, key, more, data, rest, value);
  }

  function Collect(keys: seq<str>, tups: map<str, str>, acc: map<str, str>): (m: map<str, str>)
    requires forall k :: k in keys ==> k in tups
  {
    if keys == [] then acc else Collect(keys[1..], tups, acc[keys[0] := tups[keys[0]]])
  }

  lemma {:induction false} CollectAt(keys: seq<str>, tups: map<str, str>, acc: map<str, str>, x: str)
    requires forall k :: k in keys ==> k in tups
    ensures x in Collect(keys, tups, acc) <==> x in keys || x in acc
    ensures x in keys ==> Collect(keys, tups, acc)[x] == tups[x]
    ensures x in acc && x !in keys ==> Collect(keys, tups, acc)[x] == acc[x]
    decreases |keys|
  {
    if keys != [] {
      CollectAt(keys[1..], tups, acc[keys[0] := tups[keys[0]]], x);
    }
  }

  lemma {:induction false} ParseEncodedFrom(keys: seq<str>, tups: map<str, str>, last: Option<str>, acc: map<str, str>)
    requires Sorted(keys) && forall k :: k in keys ==> k in tups
    requires last.Some? && keys != [] ==> Less(last.value, keys[0])
    requires |EncodeTuples(keys, tups)| < B32
    ensures ParseFrom(EncodeTuples(keys, tups), last, acc) == Ok(Collect(keys, tups, acc))
    decreases |keys|
  {
    if keys != [] {
      var k := keys[0];
      ParseEncodedTuple(k, tups[k], EncodeTuples(keys[1..], tups), last);
      ParseEncodedFrom(keys[1..], tups, Some(k), acc[k := tups[k]]);
    }
  }

  /** parseTuples of marshalTuples is the identity on every option map. */
  lemma {:induction false} TuplesRoundTrip(tups: map<str, str>, keys: seq<str>)
    requires Sorted(keys) && KeySet(keys) == tups.Keys
    requires forall k :: k in keys ==> k in tups
    requires |EncodeTuples(keys, tups)| < B32
    ensures ParseFrom(EncodeTuples(keys, tups), None, map[]) == Ok(tups)
  {
    ParseEncodedFrom(keys, tups, None, map[]);
    forall x
      ensures x in Collect(keys, tups, map[]) <==> x in tups
      ensures x in tups ==> Collect(keys, tups, map[])[x] == tups[x]
    {
      CollectAt(keys, tups, map[], x);
      assert x in tups <==> x in KeySet(keys);
    }
    assert Collect(keys, tups, map[]) == tups;
  }

  /** The sorted order of a set of names is unique, so the serialization of a map is too. */
  lemma {:induction false} SortedUnique(a: seq<str>, b: seq<str>)
    requires Sorted(a) && Sorted(b) && KeySet(a) == KeySet(b)
    ensures a == b
    decreases |a|
  {
    assert b != [] ==> b[0] in KeySet(b);
    if a != [] {
      assert a[0] in KeySet(a) && a[0] in KeySet(b);
      var j :| 0 <= j < |b| && b[j] == a[0];
      assert b[0] in KeySet(a);
      var i :| 0 <= i < |a| && a[i] == b[0];
      SameFirst(a, b, i, j);
      TailKeys(a);
      TailKeys(b);
      SortedUnique(a[1..], b[1..]);
      assert a == [a[0]] + a[1..] && b == [b[0]] + b[1..];
    }
  }

  lemma {:induction false} SameFirst(a: seq<str>, b: seq<str>, i: nat, j: nat)
    requires Sorted(a) && Sorted(b) && i < |a| && j < |b| && b[j] == a[0] && a[i] == b[0]
    ensures a[0] == b[0]
  {
    if i > 0 && j > 0 {
      LessTransitive(a[0], a[i], b[j]);
      LessIrreflexive(a[0]);
      assert false;
    }
  }

  lemma {:induction false} TailKeys(a: seq<str>)
    requires Sorted(a) && a != []
    ensures KeySet(a[1..]) == KeySet(a) - {a[0]}
  {
    forall k ensures k in KeySet(a[1..]) <==> k in KeySet(a) - {a[0]} {
      if k in a[1..] {
        var i :| 1 <= i < |a| && a[i] == k;
        LessIrreflexive(k);
      }
    }
  }
}
