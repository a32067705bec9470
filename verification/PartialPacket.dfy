/** What a half-received packet means: the relation between the raw bytes taken so far, the
    bytes already decoded and the cipher context, and how each reading step keeps it. */
module PartialPacket {
  import opened Bytes
  import opened Cipher
  import opened TransportSpec

  /** How much of `n` collected bytes belongs to the encrypted part of a packet. */
  function Covered(n: nat, plen: nat): nat
    requires plen > 0
  {
    if n < plen - 1 then n else plen - 1
  }

  /** `raw` has been taken from the stream since state `e`; `init` and `body` are its decoded
      first five bytes and the rest, the MAC bytes at the end left as they came. */
  ghost predicate Mid(m: Mode, e: End, raw: seq<byte>, init: seq<byte>, body: seq<byte>, cs: CipherState) {
    && m.Valid()
    && |init| == 5
    && var plen := U32Of(init);
    && LengthsOk(m, plen, init[4])
    && plen - 1 + m.MacLen() <= MAXPAYLOAD
    && |raw| == 5 + |body|
    && m.HeadLen() <= |raw|
    && |body| <= plen - 1 + m.MacLen()
    && var k := Covered(|body|, plen);
    && m.Cut(5 + k)
    && m.Transform(e.cs, raw[..5 + k]) == (cs, init + body[..k])
    && body[k..] == raw[5 + k..]
  }

  lemma MidBegin(m: Mode, e: End, raw: seq<byte>, plain: seq<byte>, cs: CipherState)
    requires m.Valid() && |raw| == m.HeadLen() && (cs, plain) == m.Transform(e.cs, raw) && |plain| == |raw|
    requires LengthsOk(m, U32Of(plain), plain[4]) && U32Of(plain) - 1 + m.MacLen() <= MAXPAYLOAD
    ensures Mid(m, e, raw, plain[..5], plain[5..], cs)
  {
    var init, body := plain[..5], plain[5..];
    var k := Covered(|body|, U32Of(init));
    assert k == |body|;
    HeadCut(m);
    assert raw[..5 + k] == raw;
    assert init + body[..k] == plain;
  }

  /** Decoding some more whole blocks of the body. */
  lemma MidDecode(m: Mode, e: End, raw: seq<byte>, init: seq<byte>, body: seq<byte>, cs: CipherState,
                  chunk: seq<byte>, plain: seq<byte>, cs': CipherState)
    requires Mid(m, e, raw, init, body, cs)
    requires m.Cut(|chunk|) && |body| + |chunk| <= U32Of(init) - 1
    requires (cs', plain) == m.Transform(cs, chunk) && |plain| == |chunk|
    ensures Mid(m, e, raw + chunk, init, body + plain, cs')
  {
    var plen := U32Of(init);
    var k := Covered(|body|, plen);
    assert k == |body| && Covered(|body + plain|, plen) == |body| + |chunk|;
    assert raw[..5 + k] == raw && body[..k] == body;
    if m.Encrypted? {
      AlignedSum(5 + k, |chunk|, m.keys.crypt.bs);
    }
    TransformConcat(m, e.cs, raw, chunk);
    assert (raw + chunk)[..5 + k + |chunk|] == raw + chunk;
    assert (body + plain)[..k + |chunk|] == body + plain;
    assert init + body + plain == init + (body + plain);
  }

  /** Taking over MAC bytes as they are. */
  lemma MidTag(m: Mode, e: End, raw: seq<byte>, init: seq<byte>, body: seq<byte>, cs: CipherState, chunk: seq<byte>)
    requires Mid(m, e, raw, init, body, cs)
    requires U32Of(init) - 1 <= |body| && |body| + |chunk| <= U32Of(init) - 1 + m.MacLen()
    ensures Mid(m, e, raw + chunk, init, body + chunk, cs)
  {
    var k := U32Of(init) - 1;
    assert (raw + chunk)[..5 + k] == raw[..5 + k];
    assert (body + chunk)[..k] == body[..k];
    assert (raw + chunk)[5 + k..] == raw[5 + k..] + chunk;
    assert (body + chunk)[k..] == body[k..] + chunk;
  }

  /** What is left to decode always ends on a block boundary. */
  lemma MidAligned(m: Mode, e: End, raw: seq<byte>, init: seq<byte>, body: seq<byte>, cs: CipherState)
    requires Mid(m, e, raw, init, body, cs) && |body| <= U32Of(init) - 1
    ensures m.Cut(U32Of(init) - 1 - |body|)
  {
    if m.Encrypted? {
      AlignedSum(U32Of(init) + 4, U32Of(init) - 1 - |body|, m.keys.crypt.bs);
    }
  }

  /** The head of the packet is what `init` says. */
  lemma MidHead(m: Mode, e: End, raw: seq<byte>, init: seq<byte>, body: seq<byte>, cs: CipherState, more: seq<byte>)
    requires Mid(m, e, raw, init, body, cs)
    ensures m.HeadLen() <= |raw|
    ensures var head := m.Transform(e.cs, (raw + more)[..m.HeadLen()]).1;
            |head| == m.HeadLen() && head[..5] == init && U32Of(head) == U32Of(init) && head[4] == init[4]
  {
    var n, k := m.HeadLen(), Covered(|body|, U32Of(init));
    HeadCut(m);
    var whole := raw[..5 + k];
    assert whole == raw[..n] + raw[n..5 + k];
    TransformConcat(m, e.cs, raw[..n], raw[n..5 + k]);
    TransformLength(m, e.cs, raw[..n]);
    var head := m.Transform(e.cs, raw[..n]).1;
    assert head == m.Transform(e.cs, whole).1[..n] == (init + body[..k])[..n];
    assert (raw + more)[..n] == raw[..n];
    assert head[..5] == init;
    assert forall i | 0 <= i < 5 :: head[i] == head[..5][i];
  }

  /** A packet not yet complete in all the bytes at hand is not delivered by the parser either. */
  lemma MidIncomplete(m: Mode, e: End, raw: seq<byte>, init: seq<byte>, body: seq<byte>, cs: CipherState, more: seq<byte>)
    requires Mid(m, e, raw, init, body, cs)
    requires |raw| + |more| < U32Of(init) + 4 + m.MacLen()
    ensures ParseOne(m, e, raw + more) == Incomplete
  {
    MidHead(m, e, raw, init, body, cs, more);
  }

  /** Once all bytes are in, the collected packet is the parser's. */
  lemma MidComplete(m: Mode, e: End, raw: seq<byte>, init: seq<byte>, body: seq<byte>, cs: CipherState)
    requires Mid(m, e, raw, init, body, cs)
    requires |body| == U32Of(init) - 1 + m.MacLen()
    ensures var n := U32Of(init) - 1;
            var mac := if m.Tag(e.seqno, init + body[..n]) == body[n..] then Confirmed else Invalid;
            ParseOne(m, e, raw) == Got(Packet(body[..n - init[4]], mac), End(cs, Next(e.seqno)), |raw|)
  {
    var n := U32Of(init) - 1;
    MidHead(m, e, raw, init, body, cs, []);
    assert raw + [] == raw;
    var plain := init + body[..n];
    assert raw[n + 5..n + 5 + m.MacLen()] == raw[n + 5..] == body[n..];
    assert plain[5..n + 5 - init[4]] == body[..n - init[4]];
    hide ParseOne;
    ParseOneGot(m, e, raw, m.Transform(e.cs, raw[..m.HeadLen()]).1, plain, cs);
  }
}
