/** The binary packet protocol of section 6 of RFC 4253 as functions on whole byte streams:
    a parser, a printer, and the proof that the parser undoes the printer. */
module TransportSpec {
  import opened Bytes
  import opened Cipher

  const MAXPAYLOAD := 40000
  const MAXINT := 0x8000_0000

  /** Before NEWKEYS packets travel in the clear; afterwards they are encrypted and carry a MAC. */
  datatype Mode = Plain | Encrypted(keys: Keys) {
    ghost predicate Valid() {
      Encrypted? ==> keys.Valid()
    }

    /** How many bytes the reader handles before it knows the packet's length. */
    function HeadLen(): nat {
      if Plain? then 5 else keys.crypt.bs
    }

    function MacLen(): nat {
      if Plain? then 0 else keys.macLen
    }

    /** Whether a cut after `n` bytes of a packet falls on a block boundary. */
    predicate Cut(n: int) {
      Encrypted? && keys.crypt.bs > 0 ==> Aligned(n, keys.crypt.bs)
    }

    function Transform(cs: CipherState, data: seq<byte>): (CipherState, seq<byte>)
      requires Encrypted? ==> keys.crypt.bs > 0
    {
      if Plain? then (cs, data) else Blocks(keys.crypt, cs, data)
    }

    /** The MAC that goes with `data`; nothing while in the clear. */
    function Tag(seqno: u32, data: seq<byte>): seq<byte> {
      if Plain? then [] else keys.Mac(seqno, data)
    }
  }

  datatype MacState = Confirmed | Invalid
  datatype Packet = Packet(payload: seq<byte>, mac: MacState)

  /** What one direction of a connection remembers between packets. */
  datatype End = End(cs: CipherState, seqno: u32)

  function Next(seqno: u32): u32 {
    (seqno + 1) % TWO32
  }

  datatype Step =
    | Incomplete
    | Malformed
    | TooBig
    | Got(packet: Packet, next: End, used: nat)

  /** The lengths the reader can make sense of. */
  predicate LengthsOk(m: Mode, plen: nat, pad: nat) {
    2 <= plen < MAXINT && 1 + pad <= plen && m.HeadLen() <= plen + 4 && m.Cut(plen + 4)
  }

  /** The first packet of the stream `s`. */
  function ParseOne(m: Mode, e: End, s: seq<byte>): (r: Step)
    requires m.Valid()
    ensures r.Got? ==> 0 < r.used <= |s|
  {
    var n := m.HeadLen();
    if |s| < n then Incomplete else
    var head := m.Transform(e.cs, s[..n]).1;
    if |head| < 5 then Malformed else
    var plen, pad := U32Of(head), head[4];
    if !(2 <= plen < MAXINT) then Malformed
    else if plen - 1 + m.MacLen() > MAXPAYLOAD then TooBig
    else if !LengthsOk(m, plen, pad) then Malformed
    else if |s| < plen + 4 + m.MacLen() then Incomplete
    else
      var body := m.Transform(e.cs, s[..plen + 4]);
      if |body.1| != plen + 4 then Malformed else
      Got(Packet(body.1[5..plen + 4 - pad],
                 if m.Tag(e.seqno, body.1) == s[plen + 4..plen + 4 + m.MacLen()] then Confirmed else Invalid),
          End(body.0, Next(e.seqno)), plen + 4 + m.MacLen())
  }

  datatype Parsed = Parsed(packets: seq<Packet>, end: End, rest: seq<byte>)

  /** Every complete packet of the stream `s`, in order, and what is left over. */
  function ParseAll(m: Mode, e: End, s: seq<byte>): (r: Parsed)
    requires m.Valid()
    decreases |s|
  {
    match ParseOne(m, e, s)
    case Got(p, e', used) =>
      Prepend(p, ParseAll(m, e', s[used..]))
    case _ => Parsed([], e, s)
  }

  /** The stream never makes the reader face a length it cannot make sense of. */
  predicate StreamOk(m: Mode, e: End, s: seq<byte>)
    requires m.Valid()
  {
    var r := ParseAll(m, e, s);
    ParseOne(m, r.end, r.rest) != Malformed
  }

  lemma TransformLength(m: Mode, cs: CipherState, s: seq<byte>)
    requires m.Valid() && m.Cut(|s|)
    ensures |m.Transform(cs, s).1| == |s|
  {
    if m.Encrypted? {
      BlocksLength(m.keys.crypt, cs, s);
    }
  }

  lemma TransformConcat(m: Mode, cs: CipherState, a: seq<byte>, b: seq<byte>)
    requires m.Valid() && m.Cut(|a|)
    ensures var ra := m.Transform(cs, a);
            var rb := m.Transform(ra.0, b);
            m.Transform(cs, a + b) == (rb.0, ra.1 + rb.1)
  {
    if m.Encrypted? {
      BlocksConcat(m.keys.crypt, cs, a, b);
    }
  }

  lemma HeadCut(m: Mode)
    requires m.Valid()
    ensures m.Cut(m.HeadLen())
  {
    if m.Encrypted? {
      DivMod(m.keys.crypt.bs, 1, 0, m.keys.crypt.bs);
    }
  }

  /** What was decided about a packet stays decided when more bytes arrive. */
  lemma ParseOneStable(m: Mode, e: End, s: seq<byte>, more: seq<byte>)
    requires m.Valid() && ParseOne(m, e, s) != Incomplete
    ensures ParseOne(m, e, s + more) == ParseOne(m, e, s)
  {
    var n := m.HeadLen();
    assert (s + more)[..n] == s[..n];
    var head := m.Transform(e.cs, s[..n]).1;
    if |head| >= 5 {
      var plen, total := U32Of(head), U32Of(head) + 4 + m.MacLen();
      if LengthsOk(m, plen, head[4]) && total <= |s| {
        assert (s + more)[..plen + 4] == s[..plen + 4];
        assert (s + more)[plen + 4..total] == s[plen + 4..total];
      }
    }
  }

  function Prepend(p: Packet, r: Parsed): Parsed {
    Parsed([p] + r.packets, r.end, r.rest)
  }

  /** `r` continues after the packets `before`. */
  function After(before: seq<Packet>, r: Parsed): Parsed {
    Parsed(before + r.packets, r.end, r.rest)
  }

  /** Parsing goes on after a fully parsed prefix as if started there. */
  lemma {:induction false} ParseAllConcat(m: Mode, e: End, a: seq<byte>, b: seq<byte>)
    requires m.Valid() && ParseAll(m, e, a).rest == []
    ensures ParseAll(m, e, a + b) == After(ParseAll(m, e, a).packets, ParseAll(m, ParseAll(m, e, a).end, b))
    decreases |a|
  {
    hide ParseOne;
    if a == [] {
      assert a + b == b;
      EmptyIncomplete(m, e);
    } else {
      var one := ParseOne(m, e, a);
      var tail := a[one.used..];
      assert ParseAll(m, e, a) == Prepend(one.packet, ParseAll(m, one.next, tail));
      var ra := ParseAll(m, one.next, tail);
      ParseAllConcat(m, one.next, tail, b);
      assert ParseAll(m, e, a + b) == Prepend(one.packet, ParseAll(m, one.next, tail + b)) by {
        ParseOneStable(m, e, a, b);
        assert (a + b)[one.used..] == tail + b;
      }
      var rb := ParseAll(m, ra.end, b);
      assert [one.packet] + (ra.packets + rb.packets) == [one.packet] + ra.packets + rb.packets;
    }
  }

  lemma EmptyIncomplete(m: Mode, e: End)
    requires m.Valid()
    ensures ParseOne(m, e, []) == Incomplete
  {
  }

  /** A stream that parses is still in order after its parsed prefix. */
  lemma StreamOkTail(m: Mode, e: End, a: seq<byte>, b: seq<byte>)
    requires m.Valid() && ParseAll(m, e, a).rest == [] && StreamOk(m, e, a + b)
    ensures ParseOne(m, ParseAll(m, e, a).end, b) != Malformed
  {
    ParseAllConcat(m, e, a, b);
  }

  /** A part of a stream that is in order is in order. */
  lemma {:induction false} StreamOkPrefix(m: Mode, e: End, a: seq<byte>, b: seq<byte>)
    requires m.Valid() && StreamOk(m, e, a + b)
    ensures StreamOk(m, e, a)
    decreases |a|
  {
    hide ParseOne;
    var one := ParseOne(m, e, a);
    if one != Incomplete {
      ParseOneStable(m, e, a, b);
      if one.Got? {
        assert (a + b)[one.used..] == a[one.used..] + b;
        StreamOkPrefix(m, one.next, a[one.used..], b);
      }
    }
  }

  /** The padding `libssh2_packet_write` adds: enough to fill the last block, at least four
      bytes, and with RANDOM_PADDING some further blocks chosen by the first payload byte. */
  function MinPadding(len: nat, bs: nat): (pad: int)
    requires bs > 0
  {
    var p := bs - (len + 5) % bs;
    if p < 4 then p + bs else p
  }

  function RandomMax(len: nat, bs: nat): (r: int)
    requires 8 <= bs <= 32
    ensures r > 0
  {
    (255 - MinPadding(len, bs)) / bs + 1
  }

  function Padding(len: nat, bs: nat, random: bool, seed: byte): (pad: int)
    requires 8 <= bs <= 32
  {
    MinPadding(len, bs) + (if random then bs * (seed % RandomMax(len, bs)) else 0)
  }

  lemma MinPaddingFills(len: nat, bs: nat)
    requires 8 <= bs <= 32
    ensures Aligned(len + 5 + MinPadding(len, bs), bs)
    ensures 4 <= MinPadding(len, bs) <= bs + 3
  {
    var q, r := (len + 5) / bs, (len + 5) % bs;
    DivMod(bs, 1, 0, bs);
    assert len + 5 + (bs - r) == q * bs + bs;
    assert q * bs + bs == (q + 1) * bs;
    DivMod(len + 5 + (bs - r), q + 1, 0, bs);
    AlignedSum(bs, len + 5 + (bs - r), bs);
  }

  lemma RandomPaddingFits(len: nat, bs: nat, seed: byte)
    requires 8 <= bs <= 32
    ensures Aligned(bs * (seed % RandomMax(len, bs)), bs)
    ensures 0 <= bs * (seed % RandomMax(len, bs)) <= 255 - MinPadding(len, bs)
  {
    var k: int := seed % RandomMax(len, bs);
    var room := 255 - MinPadding(len, bs);
    assert room == room / bs * bs + room % bs;
    Multiples(k, room / bs, bs);
    assert bs * k == k * bs;
    DivMod(bs * k, k, 0, bs);
  }

  /** Section 6 of RFC 4253: the framed length fills whole blocks and the padding is between
      four bytes and what its length byte can hold; without RANDOM_PADDING no shorter padding
      would do. */
  lemma PaddingFits(len: nat, bs: nat, random: bool, seed: byte)
    requires 8 <= bs <= 32
    ensures Aligned(len + 5 + Padding(len, bs, random, seed), bs)
    ensures 4 <= Padding(len, bs, random, seed) <= 255
    ensures !random ==> Padding(len, bs, random, seed) <= bs + 3
    ensures forall total | len + 9 <= total && Aligned(total, bs) ::
              len + 5 + Padding(len, bs, false, seed) <= total
  {
    MinPaddingFills(len, bs);
    RandomPaddingFits(len, bs, seed);
    var full := len + 5 + MinPadding(len, bs);
    AlignedSum(bs * (seed % RandomMax(len, bs)), full, bs);
    forall total | len + 9 <= total && Aligned(total, bs)
      ensures full <= total
    {
      if total < full {
        AlignedSum(full, total, bs);
        AlignedBlock(full - total, bs);
      }
    }
  }

  /** With RANDOM_PADDING the payload's first byte chooses among the `r` numbers of further blocks that the
      padding's length byte leaves room for. */
  lemma RandomPadding(m: Mode, payload: seq<byte>) returns (r: int)
    requires m.Valid() && payload != []
    ensures var bs, least := if m.Plain? then 8 else m.keys.crypt.bs, PaddingOf(m, false, payload);
            && least + bs * (r - 1) <= 255 < least + bs * r && r > 0
            && PaddingOf(m, true, payload) == least + bs * (payload[0] % r)
    ensures PaddingOf(m, true, []) == PaddingOf(m, false, [])
  {
    var bs, least := if m.Plain? then 8 else m.keys.crypt.bs, PaddingOf(m, false, payload);
    r := RandomMax(|payload|, bs);
    FurtherBlocks(255 - least, bs);
  }

  lemma FurtherBlocks(room: int, bs: nat)
    requires 0 < bs && 0 <= room
    ensures bs * (room / bs + 1 - 1) <= room < bs * (room / bs + 1)
  {
    assert room == bs * (room / bs) + room % bs;
    assert bs * (room / bs + 1) == bs * (room / bs) + bs;
  }

  /** One message handed to the writer: its payload and the random bytes used as padding. */
  datatype Message = Message(payload: seq<byte>, padding: seq<byte>)

  function WriterBlock(m: Mode): nat {
    if m.Plain? then 8 else m.keys.crypt.bs
  }

  /** The writer was given exactly the padding bytes it asked for; lengths fit an `int`. */
  predicate Padded(m: Mode, random: bool, msg: Message)
    requires m.Valid()
  {
    |msg.padding| == PaddingOf(m, random, msg.payload) && |msg.payload| < MAXINT - 0x1000
  }

  /** The packet is also one the receiver accepts (LIBSSH2_PACKET_MAXPAYLOAD). */
  predicate Sendable(m: Mode, random: bool, msg: Message)
    requires m.Valid()
  {
    Padded(m, random, msg) && |msg.payload| + |msg.padding| + m.MacLen() <= MAXPAYLOAD
  }

  predicate AllPadded(m: Mode, random: bool, msgs: seq<Message>)
    requires m.Valid()
  {
    forall i | 0 <= i < |msgs| :: Padded(m, random, msgs[i])
  }

  predicate AllSendable(m: Mode, random: bool, msgs: seq<Message>): (r: bool)
    requires m.Valid()
    ensures r ==> AllPadded(m, random, msgs)
  {
    forall i | 0 <= i < |msgs| :: Sendable(m, random, msgs[i])
  }

  function PaddingOf(m: Mode, random: bool, payload: seq<byte>): int
    requires m.Valid()
  {
    Padding(|payload|, WriterBlock(m), random && payload != [], if payload == [] then 0 else payload[0])
  }

  /** The plaintext packet: length, padding length, payload, padding. */
  function Plaintext(msg: Message): (s: seq<byte>)
    requires |msg.padding| < 256 && |msg.payload| + |msg.padding| + 1 < TWO32
    ensures |s| == |msg.payload| + |msg.padding| + 5
  {
    U32Bytes(|msg.payload| + |msg.padding| + 1) + [|msg.padding|] + msg.payload + msg.padding
  }

  /** The bytes one packet puts on the wire, and the sender's state afterwards. */
  function Frame(m: Mode, e: End, msg: Message): (r: (seq<byte>, End))
    requires m.Valid() && |msg.padding| < 256 && |msg.payload| + |msg.padding| + 1 < TWO32
  {
    var body := m.Transform(e.cs, Plaintext(msg));
    (body.1 + m.Tag(e.seqno, Plaintext(msg)), End(body.0, Next(e.seqno)))
  }

  /** The stream for a list of messages. */
  function Wire(m: Mode, random: bool, e: End, msgs: seq<Message>): (r: (seq<byte>, End))
    requires m.Valid() && AllPadded(m, random, msgs)
    decreases |msgs|
  {
    if msgs == [] then ([], e) else
    PaddedLengths(m, random, msgs[0]);
    var one := Frame(m, e, msgs[0]);
    var rest := Wire(m, random, one.1, msgs[1..]);
    (one.0 + rest.0, rest.1)
  }

  /** The two ends of one direction: the receiver's cipher undoes the sender's and both compute
      the same MAC. */
  ghost predicate Paired(tx: Mode, rx: Mode) {
    tx.Valid() && rx.Valid() && (tx.Plain? <==> rx.Plain?) &&
    (tx.Encrypted? ==> Inverse(tx.keys.crypt, rx.keys.crypt) && tx.keys.macLen == rx.keys.macLen
                       && tx.keys.hash == rx.keys.hash)
  }

  lemma TransformInverse(tx: Mode, rx: Mode, cs: CipherState, s: seq<byte>)
    requires Paired(tx, rx) && tx.Cut(|s|)
    ensures rx.Transform(cs, tx.Transform(cs, s).1) == (tx.Transform(cs, s).0, s)
  {
    if tx.Encrypted? {
      BlocksInverse(tx.keys.crypt, rx.keys.crypt, cs, s);
    }
  }

  /** The receiver recovers the head of a packet from the head of its ciphertext. */
  lemma HeadRecovered(tx: Mode, rx: Mode, cs: CipherState, plain: seq<byte>)
    requires Paired(tx, rx) && tx.Cut(|plain|) && rx.HeadLen() <= |plain|
    ensures var n := rx.HeadLen();
            var wire := tx.Transform(cs, plain).1;
            n <= |wire| && rx.Transform(cs, wire[..n]).1 == plain[..n]
  {
    var n := rx.HeadLen();
    HeadCut(tx);
    assert plain == plain[..n] + plain[n..];
    TransformConcat(tx, cs, plain[..n], plain[n..]);
    TransformLength(tx, cs, plain[..n]);
    TransformInverse(tx, rx, cs, plain[..n]);
    assert tx.Transform(cs, plain).1[..n] == tx.Transform(cs, plain[..n]).1;
  }

  lemma PlaintextFields(msg: Message)
    requires 4 <= |msg.padding| < 256 && |msg.payload| + |msg.padding| + 1 < TWO32
    ensures var s := Plaintext(msg);
            |s| == |msg.payload| + |msg.padding| + 5 && U32Of(s) == |s| - 4 && s[4] == |msg.padding| &&
            s[5..|s| - |msg.padding|] == msg.payload && s[|s| - |msg.padding|..] == msg.padding
  {
    var len: u32 := |msg.payload| + |msg.padding| + 1;
    var pad: byte := |msg.padding|;
    assert Plaintext(msg) == U32Bytes(len) + ([pad] + msg.payload + msg.padding);
    U32RoundTrip(len, [pad] + msg.payload + msg.padding);
  }

  /** What it takes for `s` to begin with a complete packet. */
  lemma ParseOneGot(m: Mode, e: End, s: seq<byte>, head: seq<byte>, body: seq<byte>, cs: CipherState)
    requires m.Valid() && m.HeadLen() <= |s| && |head| >= 5
    requires head == m.Transform(e.cs, s[..m.HeadLen()]).1
    requires LengthsOk(m, U32Of(head), head[4]) && U32Of(head) - 1 + m.MacLen() <= MAXPAYLOAD
    requires U32Of(head) + 4 + m.MacLen() <= |s|
    requires m.Transform(e.cs, s[..U32Of(head) + 4]) == (cs, body) && |body| == U32Of(head) + 4
    ensures var plen := U32Of(head);
            var total := plen + 4 + m.MacLen();
            ParseOne(m, e, s) ==
            Got(Packet(body[5..plen + 4 - head[4]],
                       if m.Tag(e.seqno, body) == s[plen + 4..total] then Confirmed else Invalid),
                End(cs, Next(e.seqno)), total)
  {
  }

  lemma ParseOneTooBig(m: Mode, e: End, s: seq<byte>, head: seq<byte>)
    requires m.Valid() && m.HeadLen() <= |s| && |head| >= 5
    requires head == m.Transform(e.cs, s[..m.HeadLen()]).1
    requires 2 <= U32Of(head) < MAXINT && U32Of(head) - 1 + m.MacLen() > MAXPAYLOAD
    ensures ParseOne(m, e, s) == TooBig
  {
  }

  lemma PaddedLengths(m: Mode, random: bool, msg: Message)
    requires m.Valid() && Padded(m, random, msg)
    ensures 4 <= |msg.padding| < 256 && |msg.payload| + |msg.padding| + 1 < TWO32
    ensures m.Cut(|msg.payload| + |msg.padding| + 5)
    ensures LengthsOk(m, |msg.payload| + |msg.padding| + 1, |msg.padding|)
  {
    PaddingFits(|msg.payload|, WriterBlock(m), random && msg.payload != [],
                if msg.payload == [] then 0 else msg.payload[0]);
    if m.Encrypted? {
      AlignedBlock(|msg.payload| + |msg.padding| + 5, m.keys.crypt.bs);
    }
  }

  /** A framed packet that ends in any MAC at all is read back, the payload and whether that MAC is the
      one of its number and plaintext; or, if it is longer than 40000 bytes, refused. */
  lemma TagDecides(tx: Mode, rx: Mode, random: bool, e: End, msg: Message, tag: seq<byte>, more: seq<byte>)
    requires Paired(tx, rx) && Padded(tx, random, msg) && |tag| == tx.MacLen()
    ensures 4 <= |msg.padding| < 256 && |msg.payload| + |msg.padding| + 1 < TWO32
    ensures var plain := Plaintext(msg);
            var body := tx.Transform(e.cs, plain);
            ParseOne(rx, e, body.1 + tag + more) ==
            if |msg.payload| + |msg.padding| + |tag| > 40000 then TooBig
            else Got(Packet(msg.payload, if tx.Plain? || tag == tx.keys.hash(e.seqno, plain) then Confirmed else Invalid),
                     End(body.0, (e.seqno + 1) % TWO32), |body.1| + |tag|)
  {
    PaddedLengths(tx, random, msg);
    hide ParseOne, Padded, Blocks, Plaintext, Mode.Transform, LengthsOk, Mode.Valid, Mode.HeadLen;
    var plain := Plaintext(msg);
    var (cs, cipher) := tx.Transform(e.cs, plain);
    var s := cipher + tag + more;
    FrameRecovered(tx, rx, random, e, msg);
    assert s[..|plain|] == cipher && s[|plain|..|plain| + |tag|] == tag;
    var head := rx.Transform(e.cs, s[..rx.HeadLen()]).1;
    assert s[..rx.HeadLen()] == cipher[..rx.HeadLen()];
    if |msg.payload| + |msg.padding| + |tag| > 40000 {
      ParseOneTooBig(rx, e, s, head);
    } else {
      ParseOneGot(rx, e, s, head, plain, cs);
    }
  }

  /** The receiver makes of the ciphertext its plaintext, and of the first block the packet's lengths. */
  lemma FrameRecovered(tx: Mode, rx: Mode, random: bool, e: End, msg: Message)
    requires Paired(tx, rx) && Padded(tx, random, msg)
    ensures 4 <= |msg.padding| < 256 && |msg.payload| + |msg.padding| + 1 < TWO32
    ensures var plain := Plaintext(msg);
            var (cs, cipher) := tx.Transform(e.cs, plain);
            && |cipher| == |plain| && rx.HeadLen() <= |plain| && rx.Transform(e.cs, cipher) == (cs, plain)
            && var head := rx.Transform(e.cs, cipher[..rx.HeadLen()]).1;
            && |head| >= 5 && U32Of(head) == |plain| - 4 < MAXINT && head[4] == |msg.padding|
            && LengthsOk(rx, U32Of(head), head[4]) && plain[5..|plain| - head[4]] == msg.payload
  {
    PaddedLengths(tx, random, msg);
    hide Padded, Blocks;
    var plain := Plaintext(msg);
    TransformLength(tx, e.cs, plain);
    HeadRecovered(tx, rx, e.cs, plain);
    PlaintextFields(msg);
    TransformInverse(tx, rx, e.cs, plain);
  }

  /** One framed packet is read back: the payload, a MAC that checks, and both ends left in the
      same state. */
  lemma FrameParses(tx: Mode, rx: Mode, random: bool, e: End, msg: Message, more: seq<byte>)
    requires Paired(tx, rx) && Sendable(tx, random, msg)
    ensures 4 <= |msg.padding| < 256
    ensures var (wire, e') := Frame(tx, e, msg);
            ParseOne(rx, e, wire + more) == Got(Packet(msg.payload, Confirmed), e', |wire|)
  {
    hide ParseOne, Padded, Plaintext;
    PaddedLengths(tx, random, msg);
    TagDecides(tx, rx, random, e, msg, tx.Tag(e.seqno, Plaintext(msg)), more);
  }

  function Intended(msgs: seq<Message>): (r: seq<Packet>)
    ensures |r| == |msgs|
  {
    seq(|msgs|, i requires 0 <= i < |msgs| => Packet(msgs[i].payload, Confirmed))
  }

  /** Sections 6 and 6.4 of RFC 4253 end to end: whatever is written is read back, payload by
      payload in order, every MAC confirmed, nothing left over, and both ends agree on cipher
      state and sequence number. */
  lemma {:induction false} WireParses(tx: Mode, rx: Mode, random: bool, e: End, msgs: seq<Message>)
    requires Paired(tx, rx) && AllSendable(tx, random, msgs)
    ensures ParseAll(rx, e, Wire(tx, random, e, msgs).0) ==
            Parsed(Intended(msgs), Wire(tx, random, e, msgs).1, [])
    decreases |msgs|
  {
    hide ParseOne, Frame;
    if msgs == [] {
      EmptyIncomplete(rx, e);
    } else {
      PaddedLengths(tx, random, msgs[0]);
      FrameParses(tx, rx, random, e, msgs[0], Wire(tx, random, Frame(tx, e, msgs[0]).1, msgs[1..]).0);
      var (one, e') := Frame(tx, e, msgs[0]);
      var rest := Wire(tx, random, e', msgs[1..]);
      assert (one + rest.0)[|one|..] == rest.0;
      WireParses(tx, rx, random, e', msgs[1..]);
      assert Intended(msgs) == [Intended(msgs)[0]] + Intended(msgs[1..]);
    }
  }

  /** The numbers count packets, modulo 2^32, whatever these are (section 6.4 of RFC 4253). */
  lemma {:induction false} WireNumber(m: Mode, random: bool, e: End, msgs: seq<Message>)
    requires m.Valid() && AllPadded(m, random, msgs)
    ensures Wire(m, random, e, msgs).1.seqno == (e.seqno + |msgs|) % TWO32
    decreases |msgs|
  {
    hide Frame, Padded, Mode.Valid;
    WireEmpty(m, random, e);
    if msgs != [] {
      PaddedLengths(m, random, msgs[0]);
      FrameNumber(m, e, msgs[0]);
      assert msgs == [msgs[0]] + msgs[1..];
      WireNumber(m, random, Frame(m, e, msgs[0]).1, msgs[1..]);
      WireFirst(m, random, e, msgs[0], msgs[1..]);
      ModNext(e.seqno, |msgs| - 1);
    }
  }

  lemma FrameNumber(m: Mode, e: End, msg: Message)
    requires m.Valid() && |msg.padding| < 256 && |msg.payload| + |msg.padding| + 1 < TWO32
    ensures Frame(m, e, msg).1.seqno == (e.seqno + 1) % TWO32
  {
    hide Plaintext, Mode.Transform, Mode.Tag;
  }

  lemma GotNumber(m: Mode, e: End, s: seq<byte>)
    requires m.Valid() && ParseOne(m, e, s).Got?
    ensures ParseOne(m, e, s).next.seqno == (e.seqno + 1) % TWO32
  {
    hide Mode.Transform, Mode.Tag, LengthsOk, U32Of, Mode.HeadLen, Mode.MacLen;
  }

  lemma {:induction false} ParseNumber(m: Mode, e: End, s: seq<byte>)
    requires m.Valid()
    ensures ParseAll(m, e, s).end.seqno == (e.seqno + |ParseAll(m, e, s).packets|) % TWO32
    decreases |s|
  {
    hide ParseOne, Mode.Valid;
    var one := ParseOne(m, e, s);
    if one.Got? {
      GotNumber(m, e, s);
      ParseNumber(m, one.next, s[one.used..]);
      ModNext(e.seqno, |ParseAll(m, one.next, s[one.used..]).packets|);
    }
  }

  lemma ModNext(a: nat, n: nat)
    ensures ((a + 1) % TWO32 + n) % TWO32 == (a + (n + 1)) % TWO32
  {
    var q := (a + 1) / TWO32;
    assert (a + 1) % TWO32 + n == a + (n + 1) - q * TWO32;
    WholeTurns(a + (n + 1), q);
  }

  lemma WholeTurns(a: int, q: int)
    ensures (a - q * TWO32) % TWO32 == a % TWO32
  {
  }

  /** Every message on its place in the stream: the encrypted plaintext packet, and behind it the hash of
      the message's own number and that plaintext. */
  lemma {:induction false} WireAt(m: Mode, random: bool, e: End, msgs: seq<Message>, i: nat)
    requires m.Valid() && AllPadded(m, random, msgs) && i < |msgs|
    ensures AllPadded(m, random, msgs[..i]) && |msgs[i].padding| < 256 && |msgs[i].payload| + |msgs[i].padding| + 1 < TWO32
    ensures var before, plain := Wire(m, random, e, msgs[..i]), Plaintext(msgs[i]);
            var wire, at := Wire(m, random, e, msgs).0, |before.0| + |plain|;
            && at <= |wire| && before.0 <= wire
            && (m.Plain? ==> wire[|before.0|..at] == plain)
            && (m.Encrypted? ==>
                  && wire[|before.0|..at] == Blocks(m.keys.crypt, before.1.cs, plain).1
                  && at + m.keys.macLen <= |wire|
                  && wire[at..at + m.keys.macLen] == m.keys.hash((e.seqno + i) % TWO32, plain))
    decreases i
  {
    hide Frame, Padded, Wire, Mode.Valid, Plaintext, Blocks;
    PaddedLengths(m, random, msgs[i]);
    var before, plain := Wire(m, random, e, msgs[..i]), Plaintext(msgs[i]);
    FrameParts(m, random, before.1, msgs[i]);
    var frame := Frame(m, before.1, msgs[i]).0;
    var rest := WireSplit(m, random, e, msgs, i);
    WireNumber(m, random, e, msgs[..i]);
    var wire, at := before.0 + frame + rest, |before.0| + |plain|;
    assert wire[|before.0|..at] == frame[..|plain|];
    if m.Encrypted? {
      assert wire[at..at + m.keys.macLen] == frame[|plain|..];
    }
  }

  lemma FrameParts(m: Mode, random: bool, e: End, msg: Message)
    requires m.Valid() && Padded(m, random, msg)
    ensures |msg.padding| < 256 && |msg.payload| + |msg.padding| + 1 < TWO32
    ensures var plain, frame := Plaintext(msg), Frame(m, e, msg).0;
            && (m.Plain? ==> frame == plain)
            && (m.Encrypted? ==>
                  && |frame| == |plain| + m.keys.macLen && frame[..|plain|] == Blocks(m.keys.crypt, e.cs, plain).1
                  && frame[|plain|..] == m.keys.hash(e.seqno, plain))
  {
    PaddedLengths(m, random, msg);
    hide Padded, Plaintext;
    var plain := Plaintext(msg);
    TransformLength(m, e.cs, plain);
    assert m.Plain? ==> plain + [] == plain;
    assert m.Encrypted? ==> |m.keys.Mac(e.seqno, plain)| == m.keys.macLen;
  }

  lemma WireSplit(m: Mode, random: bool, e: End, msgs: seq<Message>, i: nat) returns (rest: seq<byte>)
    requires m.Valid() && AllPadded(m, random, msgs) && i < |msgs|
    ensures AllPadded(m, random, msgs[..i]) && |msgs[i].padding| < 256
    ensures |msgs[i].payload| + |msgs[i].padding| + 1 < TWO32
    ensures var before := Wire(m, random, e, msgs[..i]);
            Wire(m, random, e, msgs).0 == before.0 + Frame(m, before.1, msgs[i]).0 + rest
    decreases |msgs|
  {
    hide Frame, Padded, Wire, Mode.Valid;
    var n := |msgs| - 1;
    PaddedLengths(m, random, msgs[n]);
    PaddedLengths(m, random, msgs[i]);
    assert msgs == msgs[..n] + [msgs[n]];
    WireSnoc(m, random, e, msgs[..n], msgs[n]);
    var last := Frame(m, Wire(m, random, e, msgs[..n]).1, msgs[n]).0;
    if i == n {
      rest := [];
      assert Wire(m, random, e, msgs).0 + [] == Wire(m, random, e, msgs).0;
    } else {
      var rest0 := WireSplit(m, random, e, msgs[..n], i);
      assert msgs[..n][..i] == msgs[..i];
      rest := rest0 + last;
      var before := Wire(m, random, e, msgs[..i]);
      Associative(before.0 + Frame(m, before.1, msgs[i]).0, rest0, last);
    }
  }

  /** A stream grows by one frame per message. */
  lemma {:induction false} WireSnoc(m: Mode, random: bool, e: End, msgs: seq<Message>, msg: Message)
    requires m.Valid() && AllPadded(m, random, msgs) && Padded(m, random, msg)
    ensures |msg.padding| < 256 && AllPadded(m, random, msgs + [msg])
    ensures var w := Wire(m, random, e, msgs);
            var f := Frame(m, w.1, msg);
            Wire(m, random, e, msgs + [msg]) == (w.0 + f.0, f.1)
    decreases |msgs|
  {
    PaddedLengths(m, random, msg);
    hide Frame, Padded, Wire, Mode.Valid;
    WireEmpty(m, random, e);
    if msgs == [] {
      var f := Frame(m, e, msg);
      WireEmpty(m, random, f.1);
      WireFirst(m, random, e, msg, []);
      assert [] + [msg] == [msg] + [] && f.0 + [] == f.0 == [] + f.0;
    } else {
      PaddedLengths(m, random, msgs[0]);
      var first, rest := Frame(m, e, msgs[0]), msgs[1..];
      assert msgs == [msgs[0]] + rest && msgs + [msg] == [msgs[0]] + (rest + [msg]);
      WireSnoc(m, random, first.1, rest, msg);
      WireFirst(m, random, e, msgs[0], rest);
      WireFirst(m, random, e, msgs[0], rest + [msg]);
      var w := Wire(m, random, first.1, rest);
      Associative(first.0, w.0, Frame(m, w.1, msg).0);
    }
  }

  lemma WireEmpty(m: Mode, random: bool, e: End)
    requires m.Valid()
    ensures Wire(m, random, e, []) == ([], e)
  {
  }

  lemma WireFirst(m: Mode, random: bool, e: End, msg: Message, rest: seq<Message>)
    requires m.Valid() && Padded(m, random, msg) && AllPadded(m, random, rest) && |msg.padding| < 256
    ensures AllPadded(m, random, [msg] + rest)
    ensures var one := Frame(m, e, msg);
            var w := Wire(m, random, one.1, rest);
            Wire(m, random, e, [msg] + rest) == (one.0 + w.0, w.1)
  {
    hide Frame, Padded;
    var all := [msg] + rest;
    assert all[0] == msg && all[1..] == rest;
    assert AllPadded(m, random, all);
  }
}
