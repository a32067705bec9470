/** Key material from a key exchange (section 7.2 of RFC 4253). */
module KeyExpand {
  import opened Bytes

  const DIGEST := 20

  /** The hash, the shared secret K, the exchange hash H and the session identifier. */
  datatype Exchange = Exchange(hash: seq<byte> -> seq<byte>, k: seq<byte>, h: seq<byte>, sessionId: seq<byte>) {
    function Hash(s: seq<byte>): seq<byte> {
      hash(s)
    }

    ghost predicate Valid() {
      forall s :: |Hash(s)| == DIGEST
    }

    /** K1 = HASH(K || H || X || session_id), Kn+1 = HASH(K || H || K1 || ... || Kn). */
    function Block(x: byte, n: nat): seq<byte>
      decreases n, 1
    {
      if n == 0 then Hash(k + h + [x] + sessionId) else Hash(k + h + Joined(x, n))
    }

    /** K1 || ... || Kn. */
    function Joined(x: byte, n: nat): seq<byte>
      decreases n, 0
    {
      if n == 0 then [] else Joined(x, n - 1) + Block(x, n - 1)
    }

    lemma {:induction false} JoinedLength(x: byte, n: nat)
      requires Valid()
      ensures |Joined(x, n)| == n * DIGEST
    {
      if n > 0 {
        JoinedLength(x, n - 1);
        if n > 1 {
          assert |Block(x, n - 1)| == DIGEST;
        }
      }
    }

    lemma {:induction false} JoinedPrefix(x: byte, m: nat, n: nat)
      requires m <= n
      ensures Joined(x, m) <= Joined(x, n)
      decreases n
    {
      if m < n {
        JoinedPrefix(x, m, n - 1);
      }
    }

    /** The key of this length for the purpose `x`. */
    function Key(x: byte, reqlen: nat): seq<byte>
    {
      var all := Joined(x, Blocks(reqlen));
      if reqlen <= |all| then all[..reqlen] else all
    }

    /** A shorter key is the beginning of a longer one, and every key has the length asked for. */
    lemma ShorterIsPrefix(x: byte, less: nat, more: nat)
      requires Valid() && less <= more
      ensures |Key(x, more)| == more && Key(x, less) == Key(x, more)[..less]
    {
      JoinedLength(x, Blocks(less));
      JoinedLength(x, Blocks(more));
      JoinedPrefix(x, Blocks(less), Blocks(more));
      assert Joined(x, Blocks(less)) == Joined(x, Blocks(more))[..|Joined(x, Blocks(less))|];
    }

    /** Section 7.2 of RFC 4253, digest by digest: the `n`-th twenty bytes are the hash of K, H and, for
        the first, the letter and the session identifier, otherwise all twenties before. */
    lemma JoinedChain(x: byte, m: nat, n: nat)
      requires Valid() && n < m
      ensures |Joined(x, m)| >= 20 * n + 20
      ensures Joined(x, m)[20 * n..20 * n + 20] == hash(k + h + if n == 0 then [x] + sessionId else Joined(x, m)[..20 * n])
    {
      JoinedLength(x, n);
      JoinedLength(x, n + 1);
      JoinedPrefix(x, n, m);
      JoinedPrefix(x, n + 1, m);
      assert Joined(x, m)[..20 * n] == Joined(x, n);
      assert Joined(x, m)[20 * n..20 * n + 20] == Joined(x, n + 1)[20 * n..20 * n + 20] == Block(x, n);
      Associative(k + h, [x], sessionId);
    }

    /** So a key is, up to where it is cut, a chain of such twenties. */
    lemma KeyChain(x: byte, reqlen: nat) returns (whole: seq<byte>)
      requires Valid()
      ensures |whole| % 20 == 0 && Key(x, reqlen) <= whole && |Key(x, reqlen)| == reqlen
      ensures forall n: nat | 20 * n < |whole| ::
                20 * n + 20 <= |whole| &&
                whole[20 * n..20 * n + 20] == hash(k + h + if n == 0 then [x] + sessionId else whole[..20 * n])
    {
      whole := Joined(x, Blocks(reqlen));
      JoinedLength(x, Blocks(reqlen));
      ChainStored(this, x, Blocks(reqlen), whole);
    }
  }

  /** How many digests cover so many bytes. */
  function Blocks(reqlen: nat): (n: nat)
    ensures reqlen <= n * DIGEST < reqlen + DIGEST
  {
    (reqlen + DIGEST - 1) / DIGEST
  }

  /** LIBSSH2_KEX_METHOD_DIFFIE_HELLMAN_SHA1_HASH. The buffer is 20 bytes longer than what is asked for,
      and that is enough. */
  method Expand(e: Exchange, version: byte, reqlen: nat) returns (value: array<byte>)
    requires e.Valid()
    ensures fresh(value) && value.Length == reqlen + DIGEST
    ensures var n := Blocks(reqlen) * DIGEST;
            n <= value.Length && value[..n] == e.Joined(version, Blocks(reqlen))
    ensures value[..reqlen] == e.Key(version, reqlen)
    ensures forall n: nat | 20 * n < reqlen ::
              value[20 * n..20 * n + 20] == e.hash(e.k + e.h + if n == 0 then [version] + e.sessionId else value[..20 * n])
  {
    hide Splice;
    value := new byte[reqlen + DIGEST];
    var len := 0;
    ghost var n := 0;
    while len < reqlen
      invariant len == n * DIGEST <= value.Length && n <= Blocks(reqlen)
      invariant value[..len] == e.Joined(version, n)
    {
      var hashed := e.k + e.h;
      if len > 0 {
        hashed := hashed + value[..len];
      } else {
        hashed := hashed + [version];
        hashed := hashed + e.sessionId;
      }
      var digest := e.Hash(hashed);
      assert digest == e.Block(version, n);
      SplicePart(value[..], len, digest, DIGEST);
      StoreBytes(value, len, digest);
      len := len + DIGEST;
      n := n + 1;
    }
    assert n == Blocks(reqlen);
    e.JoinedLength(version, n);
    ChainStored(e, version, n, value[..]);
    forall n: nat | 20 * n < reqlen
      ensures value[20 * n..20 * n + 20] == e.hash(e.k + e.h + if n == 0 then [version] + e.sessionId else value[..20 * n])
    {
      assert value[..][20 * n..20 * n + 20] == value[20 * n..20 * n + 20] && value[..][..20 * n] == value[..20 * n];
    }
  }

  lemma ChainStored(e: Exchange, x: byte, m: nat, value: seq<byte>)
    requires e.Valid() && e.Joined(x, m) <= value
    ensures forall n: nat | n < m ::
              20 * n + 20 <= |value| &&
              value[20 * n..20 * n + 20] == e.hash(e.k + e.h + if n == 0 then [x] + e.sessionId else value[..20 * n])
  {
    var all := e.Joined(x, m);
    forall n: nat | n < m
      ensures 20 * n + 20 <= |value|
      ensures value[20 * n..20 * n + 20] == e.hash(e.k + e.h + if n == 0 then [x] + e.sessionId else value[..20 * n])
    {
      e.JoinedChain(x, m, n);
      assert value[20 * n..20 * n + 20] == all[20 * n..20 * n + 20] && value[..20 * n] == all[..20 * n];
    }
  }
}
