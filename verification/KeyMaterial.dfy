/**
 Key derivation (generateKeyMaterial in third/ssh/transport.go, section 7.2 of RFC 4253): digests
 are chained until the buffer is full. The hash is uninterpreted, with a fixed positive size.
 */
module KeyMaterial {
  import opened Bytes

  /** The secret and hash that go in front, and the tag and session identifier of the first digest. */
  datatype Seed = Seed(hash: seq<byte> -> seq<byte>, size: nat, shared: seq<byte>, first: seq<byte>)
  {
    ghost predicate Valid() { size > 0 && forall x :: |hash(x)| == size }
  }

  /** The first n digests in a row; each but the first hashes all the digests before it. */
  function Chain(s: Seed, n: nat): (d: seq<byte>)
  {
    if n == 0 then []
    else
      var before := Chain(s, n - 1);
      before + s.hash(s.shared + if n == 1 then s.first else before)
  }

  lemma {:induction false} ChainLength(s: Seed, n: nat)
    requires s.Valid()
    ensures |Chain(s, n)| >= n
  {
    if n > 0 {
      ChainLength(s, n - 1);
    }
  }

  lemma {:induction false} ChainPrefix(s: Seed, n: nat, m: nat)
    requires n <= m
    ensures Chain(s, n) <= Chain(s, m)
    decreases m
  {
    if n < m {
      ChainPrefix(s, n, m - 1);
    }
  }

  /** The first k bytes of the chain, which no longer request changes. */
  function Material(s: Seed, k: nat): (d: seq<byte>)
    requires |Chain(s, k)| >= k
  {
    Chain(s, k)[..k]
  }

  lemma {:induction false} EnoughDigests(s: Seed, n: nat, k: nat)
    requires s.Valid() && |Chain(s, n)| >= k
    ensures |Chain(s, k)| >= k && Chain(s, n)[..k] == Material(s, k)
  {
    ChainLength(s, k);
    if n <= k {
      ChainPrefix(s, n, k);
    } else {
      ChainPrefix(s, k, n);
    }
  }

  /** Shorter key material is a prefix of longer key material from the same exchange. */
  lemma {:induction false} MaterialPrefix(s: Seed, j: nat, k: nat)
    requires s.Valid() && j <= k
    ensures |Chain(s, j)| >= j && |Chain(s, k)| >= k && Material(s, j) <= Material(s, k)
  {
    ChainLength(s, j);
    ChainLength(s, k);
    EnoughDigests(s, k, j);
  }

  /** The loop fills the whole buffer with the chain's first bytes. */
  method GenerateKeyMaterial(out: array<byte>, s: Seed)
    requires s.Valid()
    modifies out
    ensures |Chain(s, out.Length)| >= out.Length && out[..] == Material(s, out.Length)
  {
    var sofar: seq<byte> := [];
    var done := 0;
    ghost var n := 0;
    while done < out.Length
      invariant 0 <= done <= out.Length && done <= |Chain(s, n)| && out[..done] == Chain(s, n)[..done]
      invariant done < out.Length ==> sofar == Chain(s, n) && done == |sofar| && (n == 0 <==> sofar == [])
    {
      var digest := s.hash(s.shared + if sofar == [] then s.first else sofar);
      n := n + 1;
      var k := if |digest| < out.Length - done then |digest| else out.Length - done;
      CopyInto(out, done, digest[..k]);
      done := done + k;
      if done < out.Length {
        sofar := sofar + digest;
      }
    }
    EnoughDigests(s, n, out.Length);
    assert out[..] == out[..done];
  }

  method CopyInto(out: array<byte>, at: nat, bytes: seq<byte>)
    requires at + |bytes| <= out.Length
    modifies out
    ensures out[..at + |bytes|] == old(out[..at]) + bytes
  {
    forall i | 0 <= i < |bytes| {
      out[at + i] := bytes[i];
    }
  }
}
