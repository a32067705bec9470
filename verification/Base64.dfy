/** `libssh2_base64_decode` against the encoding of section 4 of RFC 4648. */
module Base64 {
  import opened Bytes
  import opened Brigade
  import opened Cipher

  type sextet = v: int | 0 <= v < 64

  /** `libssh2_base64_reverse_table`, with None for a negative entry. */
  function Reverse(c: byte): Option<sextet> {
    if 65 <= c <= 90 then Some(c - 65)
    else if 97 <= c <= 122 then Some(c - 97 + 26)
    else if 48 <= c <= 57 then Some(c - 48 + 52)
    else if c == 43 then Some(62)
    else if c == 47 then Some(63)
    else None
  }

  function Letter(v: sextet): (c: byte)
    ensures Reverse(c) == Some(v)
  {
    if v < 26 then v + 65 else if v < 52 then v - 26 + 97 else if v < 62 then v - 52 + 48 else if v == 62 then 43 else 47
  }

  const PAD: byte := 61

  /** The values of the characters that are of the alphabet. */
  function Values(src: seq<byte>): (vs: seq<sextet>)
    ensures |vs| <= |src|
  {
    if src == [] then [] else
    var before, v := Values(src[..|src| - 1]), Reverse(src[|src| - 1]);
    if v == None then before else before + [v.value]
  }

  /** Eight bits out of three pairs of neighbouring six-bit values. */
  function First(a: int, b: int): int { a * 4 + b / 16 }

  function Second(b: int, c: int): int { b % 16 * 16 + c / 4 }

  function Third(c: int, d: int): int { c % 4 * 64 + d }

  /** The `j`th byte the values spell: eight bits out of the row of six-bit values. */
  function Octet(vs: seq<sextet>, j: nat): byte
    requires j < 3 * |vs| / 4
  {
    var g := 4 * (j / 3);
    if j % 3 == 0 then First(vs[g], vs[g + 1])
    else if j % 3 == 1 then Second(vs[g + 1], vs[g + 2])
    else Third(vs[g + 2], vs[g + 3])
  }

  function Octets(vs: seq<sextet>): (s: seq<byte>)
    ensures |s| == 3 * |vs| / 4
  {
    seq(3 * |vs| / 4, j requires 0 <= j < 3 * |vs| / 4 => Octet(vs, j))
  }

  /** The `i`th six-bit value of an encoding; bits that are missing at the end are zero. */
  function Sextet(x: seq<byte>, i: nat): sextet
    requires i < (4 * |x| + 2) / 3
  {
    var g := 3 * (i / 4);
    if i % 4 == 0 then x[g] / 4
    else if i % 4 == 1 then x[g] % 4 * 16 + (if g + 1 < |x| then x[g + 1] / 16 else 0)
    else if i % 4 == 2 then x[g + 1] % 16 * 4 + (if g + 2 < |x| then x[g + 2] / 64 else 0)
    else x[g + 2] % 64
  }

  function Sextets(x: seq<byte>): (vs: seq<sextet>)
    ensures |vs| == (4 * |x| + 2) / 3
  {
    seq((4 * |x| + 2) / 3, i requires 0 <= i < (4 * |x| + 2) / 3 => Sextet(x, i))
  }

  function Letters(vs: seq<sextet>): (s: seq<byte>)
    ensures |s| == |vs|
  {
    if vs == [] then [] else Letters(vs[..|vs| - 1]) + [Letter(vs[|vs| - 1])]
  }

  /** The encoding, padded to whole groups of four. */
  function Encode(x: seq<byte>): seq<byte> {
    Letters(Sextets(x)) + if |x| % 3 == 1 then [PAD, PAD] else if |x| % 3 == 2 then [PAD] else []
  }

  /** The alphabet of table 1 of RFC 4648 in its order, and no other characters. */
  lemma Alphabet(v: sextet, c: byte)
    ensures var abc := seq(26, i => 'A' as int + i) + seq(26, i => 'a' as int + i) + seq(10, i => '0' as int + i) +
                       ['+' as int, '/' as int];
            |abc| == 64 && Letter(v) == abc[v] && (Reverse(c) == Some(v) <==> c == abc[v])
  {
  }

  lemma {:induction false} LetterAt(vs: seq<sextet>, i: nat)
    requires i < |vs|
    ensures Letters(vs)[i] == Letter(vs[i])
  {
    if i < |vs| - 1 {
      LetterAt(vs[..|vs| - 1], i);
    }
  }

  /** Section 4 of RFC 4648, group by group: three bytes, or zeros where they are missing, and the four values
      are the same number of 24 bits; there is a letter for every value that holds some of the bytes' bits,
      and "=" for the others. */
  lemma EncodedGroup(x: seq<byte>, j: nat) returns (v: seq<sextet>)
    requires 3 * j < |x|
    ensures |v| == 4 && |Encode(x)| == (|x| + 2) / 3 * 4 >= 4 * j + 4
    ensures var n, a: int, b: int, c: int :=
              |x| - 3 * j, x[3 * j], if 3 * j + 1 < |x| then x[3 * j + 1] else 0, if 3 * j + 2 < |x| then x[3 * j + 2] else 0;
            && v[0] as int * 0x4_0000 + v[1] as int * 0x1000 + v[2] as int * 64 + v[3] as int == a * 0x1_0000 + b * 256 + c
            && forall i | 0 <= i < 4 :: Encode(x)[4 * j + i] as int == if i <= n then Letter(v[i]) else '=' as int
  {
    var n := |x| - 3 * j;
    var a: int, b: int, c: int := x[3 * j], if n > 1 then x[3 * j + 1] else 0, if n > 2 then x[3 * j + 2] else 0;
    v := [a / 4, a % 4 * 16 + b / 16, b % 16 * 4 + c / 64, c % 64];
    SameNumber(a, b, c);
    forall i | 0 <= i < 4
      ensures Encode(x)[4 * j + i] as int == if i <= n then Letter(v[i]) else '=' as int
    {
      Character(x, j, i);
    }
  }

  lemma SameNumber(a: int, b: int, c: int)
    ensures a / 4 * 0x4_0000 + (a % 4 * 16 + b / 16) * 0x1000 + (b % 16 * 4 + c / 64) * 64 + c % 64 ==
              a * 0x1_0000 + b * 256 + c
  {
  }

  lemma Character(x: seq<byte>, j: nat, i: nat)
    requires 3 * j < |x| && i < 4
    ensures 4 * j + i < |Encode(x)|
    ensures var n := |x| - 3 * j;
            var a: int, b: int, c: int := x[3 * j], if n > 1 then x[3 * j + 1] else 0, if n > 2 then x[3 * j + 2] else 0;
            var s: sextet := if i == 0 then a / 4 else if i == 1 then a % 4 * 16 + b / 16
                             else if i == 2 then b % 16 * 4 + c / 64 else c % 64;
            Encode(x)[4 * j + i] == if i <= n then Letter(s) else PAD
  {
    hide Letters, Letter;
    var vs := Sextets(x);
    assert (4 * j + i) / 4 == j && (4 * j + i) % 4 == i;
    if i <= |x| - 3 * j {
      LetterAt(vs, 4 * j + i);
    }
  }

  /** `src` is `text` with bytes that are not of the alphabet put in anywhere. */
  predicate Interspersed(src: seq<byte>, text: seq<byte>) {
    if src == [] then text == []
    else
      var n, m := |src| - 1, |text| - 1;
      || (m >= 0 && src[n] == text[m] && Interspersed(src[..n], text[..m]))
      || (Reverse(src[n]) == None && Interspersed(src[..n], text))
  }

  lemma {:induction false} SameValues(src: seq<byte>, text: seq<byte>)
    requires Interspersed(src, text)
    ensures Values(src) == Values(text)
  {
    if src != [] {
      var n, m := |src| - 1, |text| - 1;
      if m >= 0 && src[n] == text[m] && Interspersed(src[..n], text[..m]) {
        SameValues(src[..n], text[..m]);
      } else {
        SameValues(src[..n], text);
      }
    }
  }

  lemma {:induction false} ValuesOfLetters(vs: seq<sextet>)
    ensures Values(Letters(vs)) == vs
  {
    if vs != [] {
      var n := |vs| - 1;
      ValuesOfLetters(vs[..n]);
      assert Letters(vs)[..n] == Letters(vs[..n]);
    }
  }

  lemma ValuesOfEncoding(x: seq<byte>)
    ensures Values(Encode(x)) == Sextets(x)
  {
    var s := Letters(Sextets(x));
    ValuesOfLetters(Sextets(x));
    assert (s + [PAD])[..|s|] == s;
    assert (s + [PAD, PAD])[..|s| + 1] == s + [PAD];
    assert s + [] == s;
  }

  lemma OctetOfSextets(x: seq<byte>, j: nat)
    requires j < |x|
    ensures j < 3 * |Sextets(x)| / 4 && Octet(Sextets(x), j) == x[j]
  {
    var g, r := j / 3, j % 3;
    GroupOfFour(x, g, r);
    assert j == 3 * g + r;
  }

  lemma FirstBack(a: byte, h: nat)
    requires h < 16
    ensures First(a / 4, a % 4 * 16 + h) == a
  {
    assert (a % 4 * 16 + h) / 16 == a % 4;
  }

  lemma SecondBack(l: nat, b: byte, h: nat)
    requires l < 4 && h < 4
    ensures Second(l * 16 + b / 16, b % 16 * 4 + h) == b
  {
    assert (l * 16 + b / 16) % 16 == b / 16;
    assert (b % 16 * 4 + h) / 4 == b % 16;
  }

  lemma ThirdBack(l: nat, c: byte)
    requires l < 16
    ensures Third(l * 4 + c / 64, c % 64) == c
  {
    assert (l * 4 + c / 64) % 4 == c / 64;
  }

  lemma Sixth(x: seq<byte>, g: nat, r: nat)
    requires r < 4 && 4 * g + r < (4 * |x| + 2) / 3
    ensures var v := Sextets(x)[4 * g + r];
            && (r == 0 ==> v == x[3 * g] / 4)
            && (r == 1 ==> v == x[3 * g] % 4 * 16 + (if 3 * g + 1 < |x| then x[3 * g + 1] / 16 else 0))
            && (r == 2 ==> v == x[3 * g + 1] % 16 * 4 + (if 3 * g + 2 < |x| then x[3 * g + 2] / 64 else 0))
            && (r == 3 ==> v == x[3 * g + 2] % 64)
  {
    assert (4 * g + r) / 4 == g && (4 * g + r) % 4 == r;
    assert Sextets(x)[4 * g + r] == Sextet(x, 4 * g + r);
  }

  /** The byte with this place in a group of three. */
  lemma GroupOfFour(x: seq<byte>, g: nat, r: nat)
    requires r < 3 && 3 * g + r < |x|
    ensures var vs := Sextets(x);
            && 4 * g + r + 1 < |vs|
            && (r == 0 ==> First(vs[4 * g], vs[4 * g + 1]) == x[3 * g])
            && (r == 1 ==> Second(vs[4 * g + 1], vs[4 * g + 2]) == x[3 * g + 1])
            && (r == 2 ==> Third(vs[4 * g + 2], vs[4 * g + 3]) == x[3 * g + 2])
  {
    hide Sextets, First, Second, Third;
    Sixth(x, g, r);
    Sixth(x, g, r + 1);
    if r == 0 {
      FirstBack(x[3 * g], if 3 * g + 1 < |x| then x[3 * g + 1] / 16 else 0);
    } else if r == 1 {
      SecondBack(x[3 * g] % 4, x[3 * g + 1], if 3 * g + 2 < |x| then x[3 * g + 2] / 64 else 0);
    } else {
      ThirdBack(x[3 * g + 1] % 16, x[3 * g + 2]);
    }
  }

  lemma EncodedLength(n: nat)
    ensures (4 * n + 2) / 3 % 4 != 1 && 3 * ((4 * n + 2) / 3) / 4 == n
  {
    var q, r := n / 3, n % 3;
    assert n == 3 * q + r;
    assert (4 * n + 2) / 3 == 4 * q + if r == 0 then 0 else r + 1;
  }

  /** What the decoder answers: nothing if a value is left over that makes up no byte. */
  function Decode(src: seq<byte>): Option<seq<byte>> {
    if |Values(src)| % 4 == 1 then None else Some(Octets(Values(src)))
  }

  /** Decoding gives back what was encoded, whatever foreign bytes have got into the text. */
  lemma DecodeEncode(x: seq<byte>, src: seq<byte>)
    requires Interspersed(src, Encode(x))
    ensures Decode(src) == Some(x)
  {
    hide Octet, Sextet, Sextets, Values, Encode, Interspersed;
    SameValues(src, Encode(x));
    ValuesOfEncoding(x);
    EncodedLength(|x|);
    var s := Octets(Sextets(x));
    forall j | 0 <= j < |x|
      ensures s[j] == x[j]
    {
      OctetOfSextets(x, j);
    }
    assert s == x;
  }

  /** Bitwise or. */
  function Or(a: nat, b: nat): nat {
    if a == 0 then b else if b == 0 then a else
    (if a % 2 == 1 || b % 2 == 1 then 1 else 0) + 2 * Or(a / 2, b / 2)
  }

  function Pow2(k: nat): (p: nat)
    ensures p > 0
  {
    if k == 0 then 1 else 2 * Pow2(k - 1)
  }

  /** Bits that do not meet. */
  lemma {:induction false} OrApart(a: nat, b: nat, k: nat)
    requires b < Pow2(k)
    ensures Or(a * Pow2(k), b) == a * Pow2(k) + b
  {
    var p := Pow2(k);
    if k > 0 {
      var x := a * Pow2(k - 1);
      OrApart(a, b / 2, k - 1);
      Doubled(a, Pow2(k - 1));
      OrEven(x, b);
    } else {
      assert a * p == a;
    }
  }

  lemma Doubled(a: nat, p: nat)
    ensures a * (2 * p) == 2 * (a * p)
  {
  }

  lemma OrEven(x: nat, b: nat)
    ensures Or(2 * x, b) == b % 2 + 2 * Or(x, b / 2)
  {
    assert 2 * x % 2 == 0 && 2 * x / 2 == x;
    if b == 0 || x == 0 {
      OrNothing(x);
      OrNothing(b);
      OrNothing(b / 2);
    }
  }

  lemma OrNothing(x: nat)
    ensures Or(x, 0) == x && Or(0, x) == x
  {
  }

  lemma OrFits(a: nat, b: nat, k: nat)
    requires b < Pow2(k)
    ensures Or(a * Pow2(k), b) == a * Pow2(k) + b
    ensures Pow2(2) == 4 && Pow2(4) == 16 && Pow2(6) == 64
  {
    OrApart(a, b, k);
    assert Pow2(1) == 2 && Pow2(2) == 4 && Pow2(3) == 8 && Pow2(4) == 16 && Pow2(5) == 32 && Pow2(6) == 64;
  }

  /** What is in the byte being put together when `vs` have been taken in. */
  function Started(vs: seq<sextet>): byte {
    var n := |vs|;
    if n == 0 then 0 else
    var v: int := vs[n - 1];
    if n % 4 == 1 then First(v, 0)
    else if n % 4 == 2 then Second(v, 0)
    else if n % 4 == 3 then Third(v, 0)
    else 0
  }

  lemma Places(i: nat)
    ensures 3 * (i + 1) / 4 == 3 * i / 4 + if i % 4 == 0 then 0 else 1
    ensures (i + 1) % 4 == if i % 4 == 3 then 0 else i % 4 + 1
  {
    var q, r := i / 4, i % 4;
    assert 3 * i == 4 * (3 * q) + 3 * r;
    assert 3 * (i + 1) == 4 * (3 * q) + 3 * r + 3;
    DivMod(3 * i, 3 * q + 3 * r / 4, 3 * r % 4, 4);
    DivMod(3 * (i + 1), 3 * q + (3 * r + 3) / 4, (3 * r + 3) % 4, 4);
    DivMod(i + 1, q + (r + 1) / 4, (r + 1) % 4, 4);
  }

  lemma OctetCount(n: nat)
    ensures 3 * n / 4 == 3 * (n / 4) + if n % 4 == 0 then 0 else n % 4 - 1
  {
    var q, r := n / 4, n % 4;
    DivMod(3 * n, 3 * q + 3 * r / 4, 3 * r % 4, 4);
  }

  /** The byte that the value which is not the first of four completes. */
  lemma LastOctet(vs: seq<sextet>, v: sextet)
    requires |vs| % 4 != 0
    ensures var n, all := |vs|, vs + [v];
            && 3 * n / 4 < 3 * |all| / 4
            && Octet(all, 3 * n / 4) ==
               if n % 4 == 1 then First(vs[n - 1], v) else if n % 4 == 2 then Second(vs[n - 1], v) else Third(vs[n - 1], v)
  {
    var n, all := |vs|, vs + [v];
    Places(n);
    OctetCount(n);
    var q, r := n / 4, n % 4;
    DivMod(3 * q + (r - 1), q, r - 1, 3);
    assert n == 4 * q + r && all[n] == v && all[n - 1] == vs[n - 1];
  }

  /** The bytes already complete stay. */
  lemma SameOctets(vs: seq<sextet>, v: sextet)
    ensures Octets(vs) <= Octets(vs + [v])
  {
    var n, all := |vs|, vs + [v];
    Places(n);
    forall j | 0 <= j < 3 * n / 4
      ensures Octets(all)[j] == Octets(vs)[j]
    {
      assert Octets(all)[j] == Octet(all, j) && Octets(vs)[j] == Octet(vs, j);
    }
  }

  /** The byte begun, and the next. */
  lemma StartedNext(vs: seq<sextet>, v: sextet)
    ensures var n, all := |vs|, vs + [v];
            && (n % 4 == 0 ==> Started(all) == v as int * 4)
            && (n % 4 == 1 ==> First(vs[n - 1], v) == Started(vs) + v / 16 && Started(all) == v as int % 16 * 16)
            && (n % 4 == 2 ==> Second(vs[n - 1], v) == Started(vs) + v / 4 && Started(all) == v as int % 4 * 64)
            && (n % 4 == 3 ==> Third(vs[n - 1], v) == Started(vs) + v)
  {
    Places(|vs|);
    assert (vs + [v])[|vs|] == v;
  }

  /** What another value adds: every one but the first of four completes a byte. */
  lemma OctetsMore(vs: seq<sextet>, v: sextet)
    ensures var n, all := |vs|, vs + [v];
            && (n % 4 == 0 ==> Octets(all) == Octets(vs) && Started(all) == v as int * 4)
            && (n % 4 == 1 ==> Octets(all) == Octets(vs) + [Started(vs) + v / 16] && Started(all) == v as int % 16 * 16)
            && (n % 4 == 2 ==> Octets(all) == Octets(vs) + [Started(vs) + v / 4] && Started(all) == v as int % 4 * 64)
            && (n % 4 == 3 ==> Octets(all) == Octets(vs) + [Started(vs) + v])
  {
    hide Octet, First, Second, Third, Started;
    var n, all := |vs|, vs + [v];
    Places(n);
    SameOctets(vs, v);
    StartedNext(vs, v);
    if n % 4 != 0 {
      LastOctet(vs, v);
      assert Octets(all)[3 * n / 4] == Octet(all, 3 * n / 4);
      assert Octets(all) == Octets(vs) + [Octet(all, 3 * n / 4)];
    }
  }

  lemma OrStarted(vs: seq<sextet>, v: sextet)
    ensures var n, b := |vs|, Started(vs);
            && (n % 4 == 1 ==> Or(b, v / 16) == b + v / 16 < 256)
            && (n % 4 == 2 ==> Or(b, v / 4) == b + v / 4 < 256)
            && (n % 4 == 3 ==> Or(b, v) == b + v < 256)
  {
    hide Or;
    if vs != [] {
      var w: nat := vs[|vs| - 1];
      OrFits(w, v / 16, 2);
      OrFits(w % 16, v / 4, 4);
      OrFits(w % 4, v, 6);
    }
  }

  /** One more value (lines 158-173); what is shifted out of an unsigned char is lost. */
  method Put(d: array<byte>, i: nat, len: nat, v: sextet, ghost vs: seq<sextet>) returns (len': nat)
    requires i == |vs| && len < d.Length && (i % 4 == 1 || i % 4 == 2 ==> len + 1 < d.Length)
    requires d[..len] == Octets(vs) && (i % 4 != 0 ==> d[len] == Started(vs))
    modifies d
    ensures len' == (if i % 4 == 0 then len else len + 1) <= d.Length && d[..len'] == Octets(vs + [v])
    ensures i % 4 != 3 ==> len' < d.Length && d[len'] == Started(vs + [v])
  {
    hide Octets, Started, Or;
    OctetsMore(vs, v);
    OrStarted(vs, v);
    len' := len;
    var w: int := v;
    ShiftedOut(v);
    if i % 4 == 0 {
      d[len'] := w * 4 % 256;
    } else if i % 4 == 1 {
      len' := PutBits(d, len', v / 16);
      d[len'] := w * 16 % 256;
    } else if i % 4 == 2 {
      len' := PutBits(d, len', v / 4);
      d[len'] := w * 64 % 256;
    } else {
      len' := PutBits(d, len', v);
    }
  }

  lemma ShiftedOut(v: sextet)
    ensures var w: int := v;
            w * 4 % 256 == w * 4 && w * 16 % 256 == w % 16 * 16 && w * 64 % 256 == w % 4 * 64
  {
    var w: int := v;
    DivMod(w * 16, w / 16, w % 16 * 16, 256);
    DivMod(w * 64, w / 4, w % 4 * 64, 256);
  }

  /** `d[len++] |= bits`. */
  method PutBits(d: array<byte>, len: nat, bits: nat) returns (len': nat)
    requires len < d.Length && Or(d[len], bits) < 256
    modifies d
    ensures len' == len + 1 && d[..len'] == old(d[..len]) + [Or(old(d[len]), bits)]
  {
    d[len] := Or(d[len], bits);
    len' := len + 1;
  }

  /** `libssh2_base64_decode`: it fails just when a value is left over, and never writes past the
      3 * src_len / 4 + 1 bytes allocated. */
  method Base64Decode(src: seq<byte>) returns (r: Option<seq<byte>>)
    ensures r == Decode(src)
  {
    hide Octets, Started;
    var d := new byte[3 * |src| / 4 + 1];
    var i, len, s := 0, 0, 0;
    ghost var vs: seq<sextet> := [];
    while s < |src|
      invariant s <= |src| && vs == Values(src[..s]) && i == |vs| <= s && len == 3 * i / 4
      invariant d[..len] == Octets(vs) && (i % 4 != 0 ==> d[len] == Started(vs))
    {
      assert src[..s + 1][..s] == src[..s];
      var v := Reverse(src[s]);
      if v.Some? {
        ghost var added := vs + [v.value];
        Places(i);
        len := Put(d, i, len, v.value, vs);
        i, vs := i + 1, added;
      }
      s := s + 1;
    }
    assert src[..s] == src;
    if i % 4 == 1 {
      return None;
    }
    return Some(d[..len]);
  }
}
