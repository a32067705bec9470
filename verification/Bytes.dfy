/** Bytes, 32-bit words and the big-endian codecs of misc.c. */
module Bytes {
  type byte = b: int | 0 <= b < 256
  const TWO32 := 0x1_0000_0000
  const TWO64 := TWO32 * TWO32
  type u32 = w: int | 0 <= w < TWO32
  type u64 = w: int | 0 <= w < TWO64

  /** The four bytes `libssh2_htonu32` stores for `v`, most significant first. */
  function U32Bytes(v: u32): (s: seq<byte>)
    ensures |s| == 4
  {
    [v / 0x100_0000, v / 0x1_0000 % 256, v / 256 % 256, v % 256]
  }

  /** The word `libssh2_ntohu32` reads, with a 32-bit `unsigned long`. */
  function U32Of(s: seq<byte>): u32
    requires |s| >= 4
  {
    var a: int, b: int, c: int, d: int := s[0], s[1], s[2], s[3];
    a * 0x100_0000 + b * 0x1_0000 + c * 256 + d
  }

  function U64Bytes(v: u64): (s: seq<byte>)
    ensures |s| == 8
  {
    U32Bytes(v / TWO32) + U32Bytes(v % TWO32)
  }

  function U64Of(s: seq<byte>): u64
    requires |s| >= 8
  {
    U32Of(s) * TWO32 + U32Of(s[4..])
  }

  lemma U32RoundTrip(v: u32, rest: seq<byte>)
    ensures U32Of(U32Bytes(v) + rest) == v
  {
    var s := U32Bytes(v);
    assert (s + rest)[..4] == s;
    var a, b, c := v / 256, v / 0x1_0000, v / 0x100_0000;
    assert v == 256 * a + v % 256 && a == 256 * b + a % 256 && b == 256 * c + b % 256;
  }

  lemma U32Injective(s: seq<byte>)
    requires |s| == 4
    ensures U32Bytes(U32Of(s)) == s
  {
    var a: int, b: int, c: int, v := s[0], s[1], s[2], U32Of(s);
    assert v / 256 == a * 0x1_0000 + b * 256 + c;
    assert v / 0x1_0000 == a * 256 + b;
    assert v / 0x100_0000 == a;
  }

  /** Most significant byte first: where two words first differ decides which is the greater. As every four
      bytes are a word's and every word is that of four bytes, this leaves no other way to read them. */
  lemma U32Order(s: seq<byte>, t: seq<byte>, k: nat)
    requires |s| >= 4 && |t| >= 4 && k < 4 && s[..k] == t[..k] && s[k] < t[k]
    ensures U32Of(s) < U32Of(t)
  {
    assert forall i | 0 <= i < k :: s[i] == s[..k][i] == t[..k][i] == t[i];
  }

  /** Reading back what was written, for the 64-bit form (misc.c:57-98). */
  lemma U64RoundTrip(v: u64, rest: seq<byte>)
    ensures U64Of(U64Bytes(v) + rest) == v
  {
    var hi, lo := U32Bytes(v / TWO32), U32Bytes(v % TWO32);
    var s := U64Bytes(v) + rest;
    assert s == hi + (lo + rest);
    assert s[4..] == lo + rest;
    U32RoundTrip(v / TWO32, lo + rest);
    U32RoundTrip(v % TWO32, rest);
  }

  lemma U64Order(s: seq<byte>, t: seq<byte>, k: nat)
    requires |s| >= 8 && |t| >= 8 && k < 8 && s[..k] == t[..k] && s[k] < t[k]
    ensures U64Of(s) < U64Of(t)
  {
    assert forall i | 0 <= i < k :: s[i] == s[..k][i] == t[..k][i] == t[i];
    if k < 4 {
      U32Order(s, t, k);
    } else {
      U32Order(s[4..], t[4..], k - 4);
    }
  }

  lemma Associative<T>(a: seq<T>, b: seq<T>, c: seq<T>)
    ensures a + (b + c) == a + b + c
  {
  }

  /** Bytes `s` stored at offset `at` of `whole`. */
  function Splice(whole: seq<byte>, at: nat, s: seq<byte>): (r: seq<byte>)
    requires at + |s| <= |whole|
    ensures |r| == |whole|
  {
    whole[..at] + s + whole[at + |s|..]
  }

  lemma SpliceNone(whole: seq<byte>, at: nat)
    requires at <= |whole|
    ensures Splice(whole, at, []) == whole
  {
  }

  lemma SplicePart(whole: seq<byte>, at: nat, s: seq<byte>, n: nat)
    requires at + |s| <= |whole| && n <= |s|
    ensures Splice(whole, at, s)[at..at + n] == s[..n]
    ensures Splice(whole, at, s)[..at + |s|] == whole[..at] + s
  {
  }

  lemma SpliceSelf(whole: seq<byte>, at: nat, n: nat)
    requires at + n <= |whole|
    ensures Splice(whole, at, whole[at..at + n]) == whole
  {
  }

  lemma SpliceMore(whole: seq<byte>, at: nat, s: seq<byte>, t: seq<byte>)
    requires at + |s| + |t| <= |whole|
    ensures Splice(Splice(whole, at, s), at + |s|, t) == Splice(whole, at, s + t)
  {
  }

  lemma SpliceRest(whole: seq<byte>, at: nat, len: nat, s: seq<byte>, n: nat)
    requires at + len <= |whole| && |s| + n <= len
    ensures Splice(whole, at, s)[at + |s|..at + |s| + n] == whole[at..at + len][|s|..|s| + n]
  {
    var left, right := Splice(whole, at, s)[at + |s|..at + |s| + n], whole[at..at + len][|s|..|s| + n];
    forall k | 0 <= k < n
      ensures left[k] == right[k]
    {
      assert left[k] == Splice(whole, at, s)[at + |s| + k] == whole[at + |s| + k];
      assert right[k] == whole[at..at + len][|s| + k];
    }
  }

  /** `libssh2_htonu32(buf + at, value)`. */
  method StoreU32(buf: array<byte>, at: nat, value: u32)
    requires at + 4 <= buf.Length
    modifies buf
    ensures buf[..] == Splice(old(buf[..]), at, U32Bytes(value))
  {
    buf[at] := value / 0x100_0000;
    buf[at + 1] := value / 0x1_0000 % 256;
    buf[at + 2] := value / 256 % 256;
    buf[at + 3] := value % 256;
  }

  /** `memcpy(buf + at, s, |s|)`. */
  method StoreBytes(buf: array<byte>, at: nat, s: seq<byte>)
    requires at + |s| <= buf.Length
    modifies buf
    ensures buf[..] == Splice(old(buf[..]), at, s)
  {
    forall k | 0 <= k < |s| {
      buf[at + k] := s[k];
    }
  }
}
