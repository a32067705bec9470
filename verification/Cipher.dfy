/** Abstract ciphers and message authentication codes: a stateful transformation of
    fixed-size blocks, and a function of sequence number and bytes. */
module Cipher {
  import opened Bytes

  /** Whatever a cipher context remembers between blocks. */
  type CipherState = seq<byte>

  datatype Crypt = Crypt(bs: nat, block: (CipherState, seq<byte>) -> (CipherState, seq<byte>)) {
    /** The context and the block that `crypt` leaves behind. */
    function Step(s: CipherState, b: seq<byte>): (CipherState, seq<byte>) {
      block(s, b)
    }

    ghost predicate Valid() {
      8 <= bs <= 32 && forall s, b | |b| == bs :: |Step(s, b).1| == bs
    }
  }

  datatype Keys = Keys(crypt: Crypt, macLen: nat, hash: (u32, seq<byte>) -> seq<byte>) {
    /** The MAC of the packet with this sequence number. */
    function Mac(seqno: u32, data: seq<byte>): seq<byte> {
      hash(seqno, data)
    }

    ghost predicate Valid() {
      crypt.Valid() && macLen <= 20 && MacOk()
    }

    ghost predicate MacOk() {
      forall n, s :: |Mac(n, s)| == macLen
    }
  }

  predicate Aligned(n: int, bs: nat) requires bs > 0 { n % bs == 0 }

  lemma AlignedSum(a: int, b: int, bs: nat)
    requires bs > 0 && Aligned(a, bs)
    ensures Aligned(a + b, bs) <==> Aligned(b, bs)
    ensures Aligned(a - b, bs) <==> Aligned(b, bs)
  {
    var q, r := b / bs, b % bs;
    assert b == q * bs + r && a == a / bs * bs;
    assert a + b == (a / bs + q) * bs + r;
    DivMod(a + b, a / bs + q, r, bs);
    if r == 0 {
      assert a - b == (a / bs - q) * bs;
      DivMod(a - b, a / bs - q, 0, bs);
    } else {
      assert a - b == (a / bs - q - 1) * bs + (bs - r);
      DivMod(a - b, a / bs - q - 1, bs - r, bs);
    }
  }

  lemma DivMod(n: int, q: int, r: int, bs: nat)
    requires bs > 0 && 0 <= r < bs && n == q * bs + r
    ensures n % bs == r && n / bs == q
  {
    var q', r' := n / bs, n % bs;
    assert n == q' * bs + r';
    Multiples(q, q', bs);
  }

  lemma Multiples(a: int, b: int, m: int)
    requires m > 0
    ensures a == b || a * m >= b * m + m || b * m >= a * m + m
  {
    if a > b {
      Ahead(a - b - 1, b, m);
    } else if b > a {
      Ahead(b - a - 1, a, m);
    }
  }

  lemma {:induction false} Ahead(d: nat, b: int, m: int)
    requires m > 0
    ensures (b + 1 + d) * m >= b * m + m
  {
    if d > 0 {
      Ahead(d - 1, b, m);
      assert (b + 1 + d) * m == (b + 1 + (d - 1)) * m + m;
    }
  }

  /** An aligned positive amount holds at least one block. */
  lemma AlignedBlock(n: int, bs: nat)
    requires bs > 0 && Aligned(n, bs) && n > 0
    ensures n >= bs && Aligned(n - bs, bs)
  {
    DivMod(bs, 1, 0, bs);
    AlignedSum(n, bs, bs);
  }

  lemma AlignedFloor(n: nat, bs: nat)
    requires bs > 0
    ensures 0 <= n - n % bs && Aligned(n - n % bs, bs) && (n >= bs ==> n - n % bs > 0)
  {
    DivMod(n - n % bs, n / bs, 0, bs);
  }

  /** The context left, and the bytes produced, by running the cipher block by block. */
  function Blocks(c: Crypt, s: CipherState, data: seq<byte>): (r: (CipherState, seq<byte>))
    requires c.bs > 0
    decreases |data|
  {
    if |data| < c.bs then (s, []) else
    var first := c.Step(s, data[..c.bs]);
    var rest := Blocks(c, first.0, data[c.bs..]);
    (rest.0, first.1 + rest.1)
  }

  lemma BlocksNone(c: Crypt, s: CipherState)
    requires c.bs > 0
    ensures Blocks(c, s, []) == (s, [])
  {
  }

  lemma {:induction false} BlocksLength(c: Crypt, s: CipherState, data: seq<byte>)
    requires c.Valid() && Aligned(|data|, c.bs)
    ensures |Blocks(c, s, data).1| == |data|
    decreases |data|
  {
    if |data| > 0 {
      AlignedBlock(|data|, c.bs);
      BlocksLength(c, c.Step(s, data[..c.bs]).0, data[c.bs..]);
    }
  }

  /** Processing can be cut at any block boundary. */
  lemma {:induction false} BlocksConcat(c: Crypt, s: CipherState, a: seq<byte>, b: seq<byte>)
    requires c.bs > 0 && Aligned(|a|, c.bs)
    ensures Blocks(c, s, a + b).0 == Blocks(c, Blocks(c, s, a).0, b).0
    ensures Blocks(c, s, a + b).1 == Blocks(c, s, a).1 + Blocks(c, Blocks(c, s, a).0, b).1
    decreases |a|
  {
    if |a| == 0 {
      assert a + b == b;
    } else {
      AlignedBlock(|a|, c.bs);
      assert (a + b)[..c.bs] == a[..c.bs];
      assert (a + b)[c.bs..] == a[c.bs..] + b;
      BlocksConcat(c, c.Step(s, a[..c.bs]).0, a[c.bs..], b);
    }
  }

  lemma BlocksOne(c: Crypt, s: CipherState, b: seq<byte>)
    requires c.bs > 0 && |b| == c.bs
    ensures Blocks(c, s, b) == c.Step(s, b)
  {
    assert b[..c.bs] == b;
    assert c.Step(s, b).1 + [] == c.Step(s, b).1;
  }

  /** Nothing is made of no bytes, and one more block of `data`, after the first `i` bytes, is what the
      cipher makes of it in the context left by these. */
  lemma BlocksExtend(c: Crypt, s: CipherState, data: seq<byte>, i: nat)
    requires c.Valid() && Aligned(i, c.bs) && i + c.bs <= |data|
    ensures var done := Blocks(c, s, data[..i]);
            var out := c.block(done.0, data[i..i + c.bs]);
            Blocks(c, s, data[..i + c.bs]) == (out.0, done.1 + out.1) && c.Step(done.0, data[i..i + c.bs]) == out
    ensures Blocks(c, s, []) == (s, [])
    ensures |Blocks(c, s, data[..i]).1| == i && |Blocks(c, s, data[..i + c.bs]).1| == i + c.bs
    ensures Aligned(c.bs, c.bs)
  {
    assert data[..i + c.bs] == data[..i] + data[i..i + c.bs];
    BlocksConcat(c, s, data[..i], data[i..i + c.bs]);
    BlocksOne(c, Blocks(c, s, data[..i]).0, data[i..i + c.bs]);
    BlocksLength(c, s, data[..i]);
    DivMod(c.bs, 1, 0, c.bs);
  }

  /** `dec` undoes `enc` block by block, both contexts moving on alike (as in CBC, CTR and
      stream modes). */
  ghost predicate Inverse(enc: Crypt, dec: Crypt) {
    enc.bs == dec.bs &&
    forall s, b | |b| == enc.bs :: dec.Step(s, enc.Step(s, b).1) == (enc.Step(s, b).0, b)
  }

  lemma {:induction false} BlocksInverse(enc: Crypt, dec: Crypt, s: CipherState, data: seq<byte>)
    requires enc.Valid() && Inverse(enc, dec) && Aligned(|data|, enc.bs)
    ensures Blocks(dec, s, Blocks(enc, s, data).1) == (Blocks(enc, s, data).0, data)
    decreases |data|
  {
    if |data| == 0 {
      assert Blocks(dec, s, []) == (s, []);
    } else {
      AlignedBlock(|data|, enc.bs);
      var first := enc.Step(s, data[..enc.bs]);
      var rest := Blocks(enc, first.0, data[enc.bs..]);
      assert (first.1 + rest.1)[..dec.bs] == first.1;
      assert (first.1 + rest.1)[dec.bs..] == rest.1;
      BlocksInverse(enc, dec, first.0, data[enc.bs..]);
      assert data[..enc.bs] + data[enc.bs..] == data;
    }
  }
}
