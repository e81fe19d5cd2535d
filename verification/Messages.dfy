/**
 Marshal and Unmarshal of third/ssh/messages.go as a deep embedding: a struct type is a schema (a
 sequence of field kinds) and a struct value is the sequence of its field values.
 */
module Messages {
  import opened Bytes
  import opened Mpint

  /** A field's Go type as the reflection switch distinguishes it; Rest is []byte tagged ssh:"rest". */
  datatype Kind = KBool | KArray(n: nat) | KUint8 | KUint32 | KUint64 | KString | KBytes | KRest | KNames | KInt

  datatype Value =
    | VBool(flag: bool)
    | VRaw(bytes: seq<byte>)
    | VNumber(number: nat)
    | VNames(names: seq<seq<byte>>)
    | VInt(integer: int)

  datatype Error = ParseError(tag: nat) | WrongType | ShortRead | FieldError(field: nat)

  datatype Result<+T> = Ok(value: T) | Err(error: Error)

  const COMMA: byte := 44

  // ---------------------------------------------------------------- name lists

  function Join(names: seq<seq<byte>>): (s: seq<byte>)
  {
    if names == [] then [] else if |names| == 1 then names[0] else names[0] + [COMMA] + Join(names[1..])
  }

  function CommaAt(s: seq<byte>): (i: nat)
    ensures i <= |s|
    ensures forall j :: 0 <= j < i ==> s[j] != COMMA
    ensures i < |s| ==> s[i] == COMMA
  {
    if s == [] || s[0] == COMMA then 0 else 1 + CommaAt(s[1..])
  }

  /** bytes.Split at commas. */
  function Split(s: seq<byte>): (parts: seq<seq<byte>>)
    decreases |s|
    ensures |parts| > 0
  {
    var i := CommaAt(s);
    if i == |s| then [s] else [s[..i]] + Split(s[i + 1..])
  }

  ghost predicate CommaFree(names: seq<seq<byte>>)
  {
    forall i :: 0 <= i < |names| ==> COMMA !in names[i]
  }

  lemma {:induction false} CommaAfter(a: seq<byte>, b: seq<byte>)
    requires COMMA !in a && (b == [] || b[0] == COMMA)
    ensures CommaAt(a + b) == |a|
  {
    if a == [] {
      assert a + b == b;
    } else {
      assert (a + b)[1..] == a[1..] + b;
      assert a[0] in a;
      assert forall x :: x in a[1..] ==> x in a;
      CommaAfter(a[1..], b);
    }
  }

  lemma {:induction false} SplitCommaFree(s: seq<byte>)
    ensures CommaFree(Split(s))
    decreases |s|
  {
    var i := CommaAt(s);
    if i < |s| {
      SplitCommaFree(s[i + 1..]);
    }
  }

  lemma {:induction false} SplitOne(a: seq<byte>)
    requires COMMA !in a
    ensures Split(a) == [a]
  {
    CommaAfter(a, []);
    assert a + [] == a;
  }

  lemma {:induction false} SplitFirst(a: seq<byte>, t: seq<byte>)
    requires COMMA !in a
    ensures Split(a + ([COMMA] + t)) == [a] + Split(t)
  {
    var s := a + ([COMMA] + t);
    CommaAfter(a, [COMMA] + t);
    assert s[..|a|] == a && s[|a| + 1..] == t;
  }

  lemma {:induction false} JoinFirst(names: seq<seq<byte>>)
    requires |names| > 1
    ensures Join(names) == names[0] + ([COMMA] + Join(names[1..]))
  {
  }

  lemma {:induction false} SplitJoin(names: seq<seq<byte>>)
    requires names != [] && CommaFree(names)
    ensures Split(Join(names)) == names
    decreases |names|
  {
    if |names| == 1 {
      SplitOne(names[0]);
      assert names == [names[0]];
    } else {
      SplitJoin(names[1..]);
      SplitFirst(names[0], Join(names[1..]));
      JoinFirst(names);
      assert names == [names[0]] + names[1..];
    }
  }

  /** A non-empty name list survives joining and splitting exactly when no name holds a comma. */
  lemma {:induction false} SplitJoinExactly(names: seq<seq<byte>>)
    requires names != []
    ensures Split(Join(names)) == names <==> CommaFree(names)
  {
    SplitCommaFree(Join(names));
    if CommaFree(names) {
      SplitJoin(names);
    }
  }

  function EncodeNames(names: seq<seq<byte>>): (s: seq<byte>)
  {
    EncodeString(Join(names))
  }

  function ParseNameList(input: seq<byte>): (r: Option<(seq<seq<byte>>, seq<byte>)>)
  {
    match ParseString(input)
    case None => None
    case Some((contents, rest)) => Some((if contents == [] then [] else Split(contents), rest))
  }

  lemma {:induction false} JoinEmpty(names: seq<seq<byte>>)
    ensures Join(names) == [] <==> names == [] || names == [[]]
  {
    if |names| == 1 {
      assert names == [names[0]];
    }
  }

  /** What a name list comes back as: joined and split again, and nothing for the empty string. */
  function RestoredNames(names: seq<seq<byte>>): (r: seq<seq<byte>>)
  {
    if Join(names) == [] then [] else Split(Join(names))
  }

  /** The list holding one empty name comes back as the empty list; every other comma-free list comes back. */
  lemma {:induction false} NamesRoundTrip(names: seq<seq<byte>>, rest: seq<byte>)
    requires |Join(names)| + |rest| < B32
    ensures ParseNameList(EncodeNames(names) + rest) == Some((RestoredNames(names), rest))
    ensures RestoredNames(names) == names <==> CommaFree(names) && names != [[]]
  {
    ParseShortString(Join(names), rest);
    JoinEmpty(names);
    if names != [] {
      SplitJoinExactly(names);
    }
  }

  // ---------------------------------------------------------------- one field

  /** The value belongs to the kind: what Go's type system guarantees. */
  predicate HasKind(v: Value, k: Kind)
  {
    match k
    case KBool => v.VBool?
    case KArray(n) => v.VRaw? && |v.bytes| == n
    case KUint8 => v.VNumber? && v.number < 256
    case KUint32 => v.VNumber? && v.number < B32
    case KUint64 => v.VNumber? && v.number < B64
    case KString => v.VRaw?
    case KBytes => v.VRaw?
    case KRest => v.VRaw?
    case KNames => v.VNames?
    case KInt => v.VInt?
  }

  function MarshalField(k: Kind, v: Value): (out: seq<byte>)
    requires HasKind(v, k)
  {
    match k
    case KBool => [if v.flag then 1 else 0]
    case KArray(_) => v.bytes
    case KUint8 => [v.number]
    case KUint32 => ToBE(v.number, 4)
    case KUint64 => ToBE(v.number, 8)
    case KString => EncodeString(v.bytes)
    case KBytes => EncodeString(v.bytes)
    case KRest => v.bytes
    case KNames => EncodeNames(v.names)
    case KInt => EncodeInt(v.integer)
  }

  /** Reading field number i of kind k from the front of data. */
  function UnmarshalField(k: Kind, i: nat, data: seq<byte>): (r: Result<(Value, seq<byte>)>)
  {
    match k
    case KBool => if |data| < 1 then Err(ShortRead) else Ok((VBool(data[0] != 0), data[1..]))
    case KArray(n) => if |data| < n then Err(ShortRead) else Ok((VRaw(data[..n]), data[n..]))
    case KUint8 => if |data| < 1 then Err(ShortRead) else Ok((VNumber(data[0]), data[1..]))
    case KUint32 => if |data| < 4 then Err(ShortRead) else Ok((VNumber(BE(data[..4])), data[4..]))
    case KUint64 => if |data| < 8 then Err(ShortRead) else Ok((VNumber(BE(data[..8])), data[8..]))
    case KString =>
      var p := ParseString(data);
      if p.None? then Err(FieldError(i)) else Ok((VRaw(p.value.0), p.value.1))
    case KBytes =>
      var p := ParseString(data);
      if p.None? then Err(ShortRead) else Ok((VRaw(p.value.0), p.value.1))
    case KRest => Ok((VRaw(data), []))
    case KNames =>
      var p := ParseNameList(data);
      if p.None? then Err(ShortRead) else Ok((VNames(p.value.0), p.value.1))
    case KInt =>
      var p := ParseInt(data);
      if p.None? then Err(ShortRead) else Ok((VInt(p.value.0), p.value.1))
  }

  /** The condition on a value beyond its type: a name list must be one that splitting restores. */
  ghost predicate Faithful(v: Value)
  {
    v.VNames? ==> CommaFree(v.names) && v.names != [[]]
  }

  function Restored(v: Value): (r: Value)
  {
    if v.VNames? then VNames(RestoredNames(v.names)) else v
  }

  /** Every field is read back, from in front of the rest of the message, as its restored value: itself exactly when it is faithful. */
  lemma {:induction false} FieldRoundTrip(k: Kind, i: nat, v: Value, rest: seq<byte>)
    requires HasKind(v, k)
    requires |MarshalField(k, v)| + |rest| < B32
    requires k.KRest? ==> rest == []
    ensures UnmarshalField(k, i, MarshalField(k, v) + rest) == Ok((Restored(v), rest))
    ensures Restored(v) == v <==> Faithful(v)
  {
    match k {
      case KString => ParseShortString(v.bytes, rest);
      case KBytes => ParseShortString(v.bytes, rest);
      case KRest => assert v.bytes + rest == v.bytes;
      case KNames => NamesRoundTrip(v.names, rest);
      case KInt => ParseShortInt(v.integer, rest);
      case _ => FixedFieldRoundTrip(k, i, v, rest);
    }
  }

  lemma {:induction false} FixedFieldRoundTrip(k: Kind, i: nat, v: Value, rest: seq<byte>)
    requires HasKind(v, k)
    requires k.KBool? || k.KArray? || k.KUint8? || k.KUint32? || k.KUint64?
    ensures UnmarshalField(k, i, MarshalField(k, v) + rest) == Ok((v, rest))
  {
    var e := MarshalField(k, v);
    assert (e + rest)[..|e|] == e && (e + rest)[|e|..] == rest;
    Pow256Values();
    if k.KUint32? {
      FixedRoundTrip(v.number, 4, rest);
    } else if k.KUint64? {
      FixedRoundTrip(v.number, 8, rest);
    }
  }

  lemma {:induction false} FixedRoundTrip(n: nat, k: nat, rest: seq<byte>)
    requires n < Pow256(k)
    ensures BE((ToBE(n, k) + rest)[..k]) == n && (ToBE(n, k) + rest)[k..] == rest
  {
    assert (ToBE(n, k) + rest)[..k] == ToBE(n, k);
    DivModUnique(n, Pow256(k), 0, n);
  }

  // ---------------------------------------------------------------- whole structs

  predicate HasSchema(vs: seq<Value>, ks: seq<Kind>)
  {
    |vs| == |ks| && forall i :: 0 <= i < |ks| ==> HasKind(vs[i], ks[i])
  }

  function MarshalFields(ks: seq<Kind>, vs: seq<Value>): (out: seq<byte>)
    requires HasSchema(vs, ks)
  {
    if ks == [] then [] else MarshalField(ks[0], vs[0]) + MarshalFields(ks[1..], vs[1..])
  }

  /** Marshal: the first type tag, if any, and then the fields. */
  function Marshal(tags: seq<byte>, ks: seq<Kind>, vs: seq<Value>): (out: seq<byte>)
    requires HasSchema(vs, ks)
  {
    (if tags == [] then [] else [tags[0]]) + MarshalFields(ks, vs)
  }

  function UnmarshalFields(ks: seq<Kind>, i: nat, data: seq<byte>): (r: Result<(seq<Value>, seq<byte>)>)
  {
    if ks == [] then Ok(([], data))
    else
      match UnmarshalField(ks[0], i, data)
      case Err(e) => Err(e)
      case Ok((v, rest)) =>
        match UnmarshalFields(ks[1..], i + 1, rest)
        case Err(e) => Err(e)
        case Ok((vs, end)) => Ok(([v] + vs, end))
  }

  /** Unmarshal: nothing may be left over after the last field. */
  function Unmarshal(tags: seq<byte>, ks: seq<Kind>, data: seq<byte>): (r: Result<seq<Value>>)
  {
    var expected := if tags == [] then 0 else tags[0];
    if data == [] then Err(ParseError(expected))
    else if tags != [] && !(data[0] > 0 && data[0] in tags) then Err(WrongType)
    else
      match UnmarshalFields(ks, 0, if tags == [] then data else data[1..])
      case Err(e) => Err(e)
      case Ok((vs, end)) => if end != [] then Err(ParseError(expected)) else Ok(vs)
  }

  /** A "rest" field may only come last. */
  predicate RestLast(ks: seq<Kind>)
  {
    forall i :: 0 <= i < |ks| - 1 ==> !ks[i].KRest?
  }

  function RestoredAll(vs: seq<Value>): (r: seq<Value>)
    ensures |r| == |vs|
  {
    if vs == [] then [] else [Restored(vs[0])] + RestoredAll(vs[1..])
  }

  lemma {:induction false} FieldsRoundTrip(ks: seq<Kind>, i: nat, vs: seq<Value>)
    requires HasSchema(vs, ks) && RestLast(ks)
    requires |MarshalFields(ks, vs)| < B32
    ensures UnmarshalFields(ks, i, MarshalFields(ks, vs)) == Ok((RestoredAll(vs), []))
    ensures RestoredAll(vs) == vs <==> forall j :: 0 <= j < |vs| ==> Faithful(vs[j])
    decreases |ks|
  {
    if ks != [] {
      var rest := MarshalFields(ks[1..], vs[1..]);
      if ks[0].KRest? {
        assert ks[1..] == [];
      }
      FieldRoundTrip(ks[0], i, vs[0], rest);
      FieldsRoundTrip(ks[1..], i + 1, vs[1..]);
      UnmarshalStep(ks, i, MarshalField(ks[0], vs[0]) + rest, RestoredAll(vs), rest);
      AllFaithful(vs);
    }
  }

  lemma {:induction false} AllFaithful(vs: seq<Value>)
    requires vs != [] && (Restored(vs[0]) == vs[0] <==> Faithful(vs[0]))
    requires RestoredAll(vs[1..]) == vs[1..] <==> forall j :: 0 <= j < |vs[1..]| ==> Faithful(vs[1..][j])
    ensures RestoredAll(vs) == vs <==> forall j :: 0 <= j < |vs| ==> Faithful(vs[j])
  {
    var r, t := RestoredAll(vs), vs[1..];
    assert r[0] == Restored(vs[0]) && r[1..] == RestoredAll(t) && vs == [vs[0]] + t && r == [r[0]] + r[1..];
    assert forall j :: 1 <= j < |vs| ==> vs[j] == t[j - 1];
    assert forall j :: 0 <= j < |t| ==> t[j] == vs[j + 1];
  }

  /** One field and the rest of the fields make all the fields. */
  lemma {:induction false} UnmarshalStep(ks: seq<Kind>, i: nat, data: seq<byte>, vs: seq<Value>, rest: seq<byte>)
    requires ks != [] && vs != []
    requires UnmarshalField(ks[0], i, data) == Ok((vs[0], rest))
    requires UnmarshalFields(ks[1..], i + 1, rest) == Ok((vs[1..], []))
    ensures UnmarshalFields(ks, i, data) == Ok((vs, []))
  {
    assert [vs[0]] + vs[1..] == vs;
  }

  /**
   What Unmarshal makes of Marshal, for every value below 2^32 bytes: an error if nothing was written
   or the type tag is zero, and else the restored fields. So the value comes back exactly when its
   encoding is not empty, a type tag is not zero, and every name list is one that splitting restores.
   */
  lemma {:induction false} RoundTrip(tags: seq<byte>, ks: seq<Kind>, vs: seq<Value>)
    requires HasSchema(vs, ks) && RestLast(ks) && |Marshal(tags, ks, vs)| < B32
    ensures Unmarshal(tags, ks, Marshal(tags, ks, vs)) ==
            if Marshal(tags, ks, vs) == [] then Err(ParseError(0))
            else if tags != [] && tags[0] == 0 then Err(WrongType)
            else Ok(RestoredAll(vs))
    ensures Unmarshal(tags, ks, Marshal(tags, ks, vs)) == Ok(vs) <==>
            && Marshal(tags, ks, vs) != [] && (tags != [] ==> tags[0] > 0)
            && forall j :: 0 <= j < |vs| ==> Faithful(vs[j])
  {
    FieldsRoundTrip(ks, 0, vs);
    var data := Marshal(tags, ks, vs);
    if tags == [] {
      assert data == MarshalFields(ks, vs);
    } else {
      assert data[1..] == MarshalFields(ks, vs);
    }
  }

  lemma {:induction false} EmptyNameField()
    ensures MarshalField(KNames, VNames([[]])) == EncodeString([])
    ensures UnmarshalField(KNames, 0, EncodeString([]) + []) == Ok((VNames([]), []))
  {
    assert Join([[]]) == [];
    ParseShortString([], []);
  }

  lemma {:induction false} OneField(k: Kind, v: Value, e: seq<byte>, w: Value)
    requires HasKind(v, k) && HasSchema([v], [k])
    requires MarshalField(k, v) == e && e != [] && UnmarshalField(k, 0, e + []) == Ok((w, []))
    ensures Unmarshal([], [k], Marshal([], [k], [v])) == Ok([w])
  {
    assert MarshalFields([k][1..], [v][1..]) == [];
    assert MarshalFields([k], [v]) == e + [];
    assert Marshal([], [k], [v]) == e + [];
    assert [w][1..] == [] && UnmarshalFields([k][1..], 1, []) == Ok(([], []));
    UnmarshalStep([k], 0, e + [], [w], []);
  }

  /** A struct whose only trouble is a list holding one empty name does not come back. */
  lemma {:induction false} EmptyNameIsLost()
    ensures Unmarshal([], [KNames], Marshal([], [KNames], [VNames([[]])])) == Ok([VNames([])])
  {
    EmptyNameField();
    OneField(KNames, VNames([[]]), EncodeString([]), VNames([]));
  }

  // ---------------------------------------------------------------- the loops

  /** marshalStruct appends field after field to its output. */
  method MarshalStruct(out: seq<byte>, tags: seq<byte>, ks: seq<Kind>, vs: seq<Value>) returns (r: seq<byte>)
    requires HasSchema(vs, ks)
    ensures r == out + Marshal(tags, ks, vs)
  {
    r := out;
    if |tags| > 0 {
      r := r + [tags[0]];
    }
    ghost var start := r;
    assert ks[0..] == ks && vs[0..] == vs;
    for i := 0 to |ks|
      invariant r + MarshalFields(ks[i..], vs[i..]) == start + MarshalFields(ks, vs)
    {
      assert ks[i..][0] == ks[i] && vs[i..][0] == vs[i];
      assert ks[i..][1..] == ks[i + 1..] && vs[i..][1..] == vs[i + 1..];
      r := r + MarshalField(ks[i], vs[i]);
    }
    assert start == out + (if tags == [] then [] else [tags[0]]);
    assert r + [] == r;
  }

  /** Unmarshal sets the fields one by one and stops at the first failure. */
  method UnmarshalStruct(tags: seq<byte>, ks: seq<Kind>, input: seq<byte>) returns (r: Result<seq<Value>>)
    ensures r == Unmarshal(tags, ks, input)
  {
    var expected := if tags == [] then 0 else tags[0];
    if |input| == 0 {
      return Err(ParseError(expected));
    }
    var data := input;
    if |tags| > 0 {
      var good := false;
      for j := 0 to |tags|
        invariant good <==> data[0] > 0 && data[0] in tags[..j]
      {
        if tags[j] > 0 && data[0] == tags[j] {
          good := true;
        }
        assert tags[..j + 1] == tags[..j] + [tags[j]];
      }
      assert tags[..|tags|] == tags;
      if !good {
        return Err(WrongType);
      }
      data := data[1..];
    }
    ghost var whole := UnmarshalFields(ks, 0, data);
    var fields: seq<Value> := [];
    assert ks[0..] == ks;
    PrependNone(whole);
    for i := 0 to |ks|
      invariant whole == Prepend(fields, UnmarshalFields(ks[i..], i, data))
    {
      assert ks[i..][0] == ks[i] && ks[i..][1..] == ks[i + 1..];
      var f := UnmarshalField(ks[i], i, data);
      if f.Err? {
        return Err(f.error);
      }
      PrependOne(fields, f.value.0, UnmarshalFields(ks[i + 1..], i + 1, f.value.1));
      fields := fields + [f.value.0];
      data := f.value.1;
    }
    assert fields + [] == fields;
    if |data| != 0 {
      return Err(ParseError(expected));
    }
    return Ok(fields);
  }

  function Prepend(vs: seq<Value>, r: Result<(seq<Value>, seq<byte>)>): (p: Result<(seq<Value>, seq<byte>)>)
  {
    match r
    case Err(_) => r
    case Ok((ws, rest)) => Ok((vs + ws, rest))
  }

  lemma {:induction false} PrependNone(r: Result<(seq<Value>, seq<byte>)>)
    ensures Prepend([], r) == r
  {
    if r.Ok? {
      assert [] + r.value.0 == r.value.0;
    }
  }

  lemma {:induction false} PrependOne(vs: seq<Value>, v: Value, r: Result<(seq<Value>, seq<byte>)>)
    ensures Prepend(vs, Prepend([v], r)) == Prepend(vs + [v], r)
  {
    match r {
      case Err(_) =>
      case Ok((ws, _)) => assert vs + ([v] + ws) == vs + [v] + ws;
    }
  }

  // ---------------------------------------------------------------- the signed authentication blob

  const MSG_USER_AUTH_REQUEST: byte := 50

  /** Session, Type, User, Service, Method, Sign, Algo, PubKey. */
  const SIGNED_SCHEMA: seq<Kind> := [KBytes, KUint8, KString, KString, KString, KBool, KString, KBytes]

  datatype AuthRequest = AuthRequest(user: seq<byte>, service: seq<byte>, method_: seq<byte>)

  function SignedValues(session: seq<byte>, req: AuthRequest, algo: seq<byte>, key: seq<byte>): (vs: seq<Value>)
    ensures HasSchema(vs, SIGNED_SCHEMA)
  {
    [VRaw(session), VNumber(MSG_USER_AUTH_REQUEST), VRaw(req.user), VRaw(req.service), VRaw(req.method_),
     VBool(true), VRaw(algo), VRaw(key)]
  }

  /** buildDataSignedForAuth */
  function DataSignedForAuth(session: seq<byte>, req: AuthRequest, algo: seq<byte>, key: seq<byte>): (out: seq<byte>)
  {
    Marshal([], SIGNED_SCHEMA, SignedValues(session, req, algo, key))
  }

  /** A signature over the blob binds every field: equal blobs come from equal fields. */
  lemma {:induction false} SignedDataInjective(s1: seq<byte>, r1: AuthRequest, a1: seq<byte>, k1: seq<byte>,
                            s2: seq<byte>, r2: AuthRequest, a2: seq<byte>, k2: seq<byte>)
    requires DataSignedForAuth(s1, r1, a1, k1) == DataSignedForAuth(s2, r2, a2, k2)
    requires |DataSignedForAuth(s1, r1, a1, k1)| < B32
    ensures s1 == s2 && r1 == r2 && a1 == a2 && k1 == k2
  {
    var v1, v2 := SignedValues(s1, r1, a1, k1), SignedValues(s2, r2, a2, k2);
    BlobNonEmpty(s1, r1, a1, k1);
    RoundTrip([], SIGNED_SCHEMA, v1);
    RoundTrip([], SIGNED_SCHEMA, v2);
    assert v1 == v2;
    assert v1[0] == v2[0] && v1[2] == v2[2] && v1[3] == v2[3] && v1[4] == v2[4] && v1[6] == v2[6] && v1[7] == v2[7];
  }

  lemma {:induction false} BlobNonEmpty(s: seq<byte>, r: AuthRequest, a: seq<byte>, k: seq<byte>)
    ensures |DataSignedForAuth(s, r, a, k)| > 0
  {
    assert |MarshalField(KBytes, VRaw(s))| >= 4;
  }
}
