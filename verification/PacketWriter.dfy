/** `libssh2_packet_write` and `send_existing`: framing, padding, MAC and encryption into a buffer
    that outlives a send the socket did not take whole. */
module PacketWriter {
  import opened Bytes
  import opened Scripts
  import opened Cipher
  import opened TransportSpec

  /** What `send` answers: how many bytes it took (all of them if `n` is large enough), EAGAIN, or
      another error. */
  datatype SendOutcome = Took(n: nat) | WouldBlock | Failed

  /** What a send of `length` bytes answers; a script that has run out would block. */
  function Given(sends: seq<SendOutcome>, length: nat): (a: SendOutcome)
    ensures a.Took? ==> a.n <= length
  {
    var a := if sends == [] then WouldBlock else sends[0];
    if a.Took? && a.n > length then Took(length) else a
  }

  function Gone(a: SendOutcome): nat {
    if a.Took? then a.n else 0
  }

  datatype WriteResult = None | Eagain | BadUse | Fail

  /** A run of the encryption loop: cipher and context, the plaintext, and the MAC behind it. */
  datatype Job = Job(crypt: Crypt, cs: CipherState, plain: seq<byte>, tail: seq<byte>) {
    ghost predicate Valid() {
      crypt.Valid() && Aligned(|plain|, crypt.bs)
    }
  }

  /** The first `i` bytes are done. */
  ghost predicate HalfEncrypted(j: Job, i: nat, cs: CipherState, buf: seq<byte>) {
    && j.Valid() && i <= |j.plain| && Aligned(i, j.crypt.bs)
    && var done := Blocks(j.crypt, j.cs, j.plain[..i]);
    && |done.1| == i && cs == done.0 && buf == done.1 + j.plain[i..] + j.tail
  }

  lemma EncryptedStart(j: Job)
    requires j.Valid()
    ensures HalfEncrypted(j, 0, j.cs, j.plain + j.tail)
  {
    assert j.plain[..0] == [];
    BlocksNone(j.crypt, j.cs);
    assert [] + j.plain[0..] + j.tail == j.plain + j.tail;
  }

  lemma EncryptedRoom(j: Job, i: nat, cs: CipherState, buf: seq<byte>)
    requires HalfEncrypted(j, i, cs, buf)
    ensures i < |j.plain| ==> i + j.crypt.bs <= |j.plain|
  {
    if i < |j.plain| {
      AlignedSum(i, |j.plain| - i, j.crypt.bs);
      AlignedBlock(|j.plain| - i, j.crypt.bs);
    }
  }

  lemma EncryptedStep(j: Job, i: nat, cs: CipherState, buf: seq<byte>)
    requires HalfEncrypted(j, i, cs, buf) && i + j.crypt.bs <= |j.plain|
    ensures |buf| == |j.plain| + |j.tail|
    ensures var out := j.crypt.Step(cs, buf[i..i + j.crypt.bs]);
            |out.1| == j.crypt.bs && HalfEncrypted(j, i + j.crypt.bs, out.0, Splice(buf, i, out.1))
  {
    hide Blocks;
    var bs := j.crypt.bs;
    BlocksExtend(j.crypt, j.cs, j.plain, i);
    AlignedSum(i, bs, bs);
    var done := Blocks(j.crypt, j.cs, j.plain[..i]).1;
    assert buf[i..i + bs] == j.plain[i..i + bs];
    var out := j.crypt.Step(cs, j.plain[i..i + bs]);
    assert Splice(buf, i, out.1) == done + out.1 + j.plain[i + bs..] + j.tail;
  }

  lemma EncryptedEnd(j: Job, i: nat, cs: CipherState, buf: seq<byte>)
    requires HalfEncrypted(j, i, cs, buf) && i >= |j.plain|
    ensures var r := Blocks(j.crypt, j.cs, j.plain);
            |r.1| == |j.plain| && cs == r.0 && buf == r.1 + j.tail
  {
    assert j.plain[..i] == j.plain;
    assert Blocks(j.crypt, j.cs, j.plain).1 + [] + j.tail == Blocks(j.crypt, j.cs, j.plain).1 + j.tail;
  }

  lemma TagLength(m: Mode, seqno: u32, s: seq<byte>)
    requires m.Valid()
    ensures |m.Tag(seqno, s)| == m.MacLen()
  {
  }

  /** Storing the fields one after the other makes the plaintext packet. */
  lemma PlainLayout(b: seq<byte>, msg: Message)
    requires |msg.padding| < 256 && |msg.payload| + |msg.padding| + 1 < TWO32
    requires |msg.payload| + |msg.padding| + 5 <= |b|
    ensures var n := |msg.payload|;
            var b1 := Splice(Splice(b, 0, U32Bytes(n + |msg.padding| + 1)), 4, [|msg.padding|]);
            Splice(Splice(b1, 5, msg.payload), 5 + n, msg.padding)[..n + |msg.padding| + 5] == Plaintext(msg)
  {
    var n, head := |msg.payload|, U32Bytes(|msg.payload| + |msg.padding| + 1);
    var b1 := Splice(Splice(b, 0, head), 4, [|msg.padding|]);
    assert b1[..5] == head + [|msg.padding|];
    var b2 := Splice(b1, 5, msg.payload);
    assert b2[..5 + n] == b1[..5] + msg.payload;
    SplicePart(b2, 5 + n, msg.padding, |msg.padding|);
  }

  lemma Halves(w: seq<byte>, frame: seq<byte>, n: nat)
    requires n <= |frame|
    ensures w + frame == w + frame[0..n] + frame[n..]
    ensures n == |frame| ==> frame[0..n] == frame
  {
    assert frame == frame[0..n] + frame[n..];
  }

  /** What is answered for a new packet of this length. */
  function Answered(a: SendOutcome, length: nat): WriteResult {
    if a == Took(length) then None
    else if a == WouldBlock || (a.Took? && a.n > 0) then Eagain
    else Fail
  }

  class Writer {
    const mode: Mode
    const randomPadding: bool
    var cs: CipherState
    var seqno: u32
    var outbuf: array?<byte>
    var ototalNum: nat
    var osent: nat
    var odata: array?<byte>
    var olen: nat
    var sends: seq<SendOutcome>
    /** Every byte the socket has taken. */
    var wire: seq<byte>

    /** The messages accepted so far; `torn` once bytes of a packet have been
        skipped, `broken` after a send that failed outright. */
    ghost const origin: End
    ghost var msgs: seq<Message>
    ghost var torn: bool
    ghost var broken: bool

    constructor (mode: Mode, randomPadding: bool, e: End, sends: seq<SendOutcome>)
      requires mode.Valid()
      ensures Valid() && msgs == [] && wire == [] && outbuf == null && !torn && !broken
      ensures this.mode == mode && this.randomPadding == randomPadding && origin == e && this.sends == sends
    {
      this.mode, this.randomPadding, origin, this.sends := mode, randomPadding, e, sends;
      cs, seqno := e.cs, e.seqno;
      outbuf, ototalNum, osent, odata, olen := null, 0, 0, null, 0;
      wire, msgs, torn, broken := [], [], false, false;
    }

    /** The stream the accepted messages make, and the state they leave. */
    ghost predicate FramesOk()
      reads this`msgs, this`cs, this`seqno
    {
      && mode.Valid() && AllPadded(mode, randomPadding, msgs)
      && Wire(mode, randomPadding, origin, msgs).1 == End(cs, seqno)
    }

    ghost function Framed(): seq<byte>
      reads this`msgs
      requires mode.Valid() && AllPadded(mode, randomPadding, msgs)
    {
      Wire(mode, randomPadding, origin, msgs).0
    }

    /** What the socket has taken and what waits in the buffer make up that stream. */
    ghost predicate Valid()
      reads this, outbuf
    {
      FramesOk() &&
      (broken ||
       ((!torn ==> if outbuf == null then wire == Framed()
                    else osent <= ototalNum == outbuf.Length && wire + outbuf[osent..] == Framed()) &&
       (torn && outbuf != null ==> osent <= ototalNum == outbuf.Length)))
    }

    /** `send(fd, buf + from, length)`. */
    method Send(buf: array<byte>, from: nat, length: nat) returns (r: SendOutcome)
      requires from + length <= buf.Length
      modifies this`sends, this`wire
      ensures r == Given(old(sends), length) && sends == Later(old(sends))
      ensures wire == old(wire) + if r.Took? then buf[from..from + r.n] else []
    {
      r := if sends == [] then WouldBlock else sends[0];
      sends := if sends == [] then [] else sends[1..];
      if r.Took? {
        r := Took(if r.n < length then r.n else length);
        wire := wire + buf[from..from + r.n];
      }
    }

    /** The rest of a packet that an earlier send did not take whole. A send that takes only a part
        of that rest goes unnoticed: the skipped bytes never reach the wire. */
    method SendExisting(data: array<byte>, dataLen: nat) returns (rc: WriteResult)
      requires Valid() && !broken && outbuf != null
      modifies this`sends, this`wire, this`outbuf, this`ototalNum, this`osent, this`torn
      ensures Valid()
      ensures if old(data != odata || dataLen != olen)
              then rc == BadUse && wire == old(wire) && outbuf == old(outbuf) && torn == old(torn) && sends == old(sends)
              else
                var left := old(ototalNum - osent);
                var a := Given(old(sends), left);
                && rc == (if a == WouldBlock then Eagain else if a == Failed then Fail else None)
                && wire == old(wire) + old(outbuf[osent..osent + Gone(a)])
                && (torn <==> old(torn) || (a.Took? && a.n < left))
                && sends == Later(old(sends)) && (outbuf == null <==> a == Took(left)) && (outbuf != null ==> outbuf == old(outbuf))
    {
      hide Wire, AllPadded;
      if data != odata || dataLen != olen {
        return BadUse;
      }
      var length := ototalNum - osent;
      ghost var rest, w := outbuf[osent..], wire;
      assert !torn ==> Framed() == w + rest && |rest| == length;
      var sent := Send(outbuf, osent, length);
      assert w + [] == w && outbuf[osent..osent] == [];
      if sent == Took(length) {
        assert rest == outbuf[osent..osent + length];
        outbuf := null;
        ototalNum := 0;
      } else if sent == WouldBlock {
        return Eagain;
      } else if sent == Failed {
        return Fail;
      } else {
        torn := true;
      }
      osent := osent + length;
      return None;
    }

    /** The encryption loop of lines 776-781, in place, leaving the MAC alone. */
    method EncryptInPlace(packetLength: nat)
      requires mode.Encrypted? && mode.Valid() && outbuf != null && packetLength <= outbuf.Length
      requires mode.Cut(packetLength)
      modifies this`cs, outbuf
      ensures ghost var r := mode.Transform(old(cs), old(outbuf[..packetLength]));
              |r.1| == packetLength && cs == r.0 && outbuf[..] == r.1 + old(outbuf[packetLength..])
    {
      var bs := mode.HeadLen();
      ghost var tail := outbuf[packetLength..];
      ghost var job := Job(mode.keys.crypt, cs, outbuf[..packetLength], tail);
      EncryptedStart(job);
      assert outbuf[..] == job.plain + tail && bs > 0;
      hide HalfEncrypted;
      var i := 0;
      while i < packetLength
        invariant HalfEncrypted(job, i, cs, outbuf[..])
        decreases packetLength - i
      {
        EncryptedRoom(job, i, cs, outbuf[..]);
        EncryptBlock(i, job);
        i := i + bs;
      }
      EncryptedEnd(job, i, cs, outbuf[..]);
    }

    method EncryptBlock(i: nat, ghost job: Job)
      requires mode.Encrypted? && job.crypt == mode.keys.crypt && outbuf != null
      requires HalfEncrypted(job, i, cs, outbuf[..]) && i + job.crypt.bs <= |job.plain|
      modifies this`cs, outbuf
      ensures HalfEncrypted(job, i + job.crypt.bs, cs, outbuf[..])
    {
      hide HalfEncrypted;
      EncryptedStep(job, i, cs, outbuf[..]);
      var bs := mode.keys.crypt.bs;
      assert outbuf[i..i + bs] == outbuf[..][i..i + bs];
      var out := mode.keys.crypt.Step(cs, outbuf[i..i + bs]);
      cs := out.0;
      StoreBytes(outbuf, i, out.1);
    }

    /** Lines 746-772: the packet in the clear, its MAC behind it. */
    method BuildPlain(data: array<byte>, dataLen: nat, padding: seq<byte>) returns (packetLength: nat)
      requires mode.Valid() && dataLen <= data.Length && |padding| < 256 && dataLen < MAXINT - 0x1000
      modifies this`outbuf
      ensures fresh(outbuf) && packetLength == dataLen + |padding| + 5
      ensures ghost var plain := Plaintext(Message(data[..dataLen], padding));
              outbuf[..] == plain + mode.Tag(seqno, plain)
    {
      packetLength := dataLen + 5 + |padding|;
      ghost var plain := Plaintext(Message(data[..dataLen], padding));
      var buf := new byte[packetLength + mode.MacLen()];
      outbuf := buf;
      ghost var b0 := buf[..];
      ghost var payload := data[..dataLen];
      StoreU32(buf, 0, packetLength - 4);
      StoreBytes(buf, 4, [|padding|]);
      StoreBytes(buf, 5, data[..dataLen]);
      StoreBytes(buf, 5 + dataLen, padding);
      PlainLayout(b0, Message(payload, padding));
      assert buf[..packetLength] == buf[..][..packetLength] == plain;
      hide Plaintext, Splice;
      if mode.Encrypted? {
        TagLength(mode, seqno, plain);
        var mac := mode.keys.Mac(seqno, buf[..packetLength]);
        ghost var b1 := buf[..];
        StoreBytes(buf, packetLength, mac);
        SplicePart(b1, packetLength, mac, |mac|);
      }
    }

    /** Lines 704-784: the whole packet, framed, authenticated and encrypted; its number used up. */
    method FramePacket(data: array<byte>, dataLen: nat, noise: seq<byte>) returns (totalLength: nat)
      requires FramesOk() && dataLen <= data.Length && dataLen < MAXINT - 0x1000 && |noise| >= 255
      modifies this`outbuf, this`cs, this`seqno, this`msgs
      ensures FramesOk() && fresh(outbuf) && 0 < totalLength == outbuf.Length
      ensures msgs == old(msgs) + [NextMessage(data[..dataLen], noise)]
      ensures Framed() == old(Framed()) + outbuf[..]
      ensures seqno == (old(seqno) + 1) % TWO32
      ensures mode.Encrypted? ==>
                && mode.keys.macLen <= totalLength
                && outbuf[totalLength - mode.keys.macLen..] ==
                     mode.keys.hash(old(seqno), Plaintext(NextMessage(data[..dataLen], noise)))
    {
      hide AllPadded, Blocks, Plaintext, Wire;
      ghost var msg := NextMessage(data[..dataLen], noise);
      PaddedLengths(mode, randomPadding, msg);
      ghost var e := End(cs, seqno);
      FrameParts(mode, randomPadding, e, msg);
      var padding := noise[..PaddingOf(mode, randomPadding, data[..dataLen])];
      var packetLength := BuildPlain(data, dataLen, padding);
      totalLength := outbuf.Length;
      ghost var plain := Plaintext(msg);
      assert outbuf[..packetLength] == plain && outbuf[packetLength..] == mode.Tag(seqno, plain);
      if mode.Encrypted? {
        EncryptInPlace(packetLength);
      }
      seqno := Next(seqno);
      WireSnoc(mode, randomPadding, origin, msgs, msg);
      msgs := msgs + [msg];
    }

    /** The message made of `payload` and as much of `noise` as its padding takes. */
    ghost function NextMessage(payload: seq<byte>, noise: seq<byte>): (m: Message)
      requires mode.Valid() && |payload| < MAXINT - 0x1000 && |noise| >= 255
      ensures Padded(mode, randomPadding, m) && m.payload == payload
      ensures |m.padding| < 256 && |m.payload| + |m.padding| + 1 < TWO32
    {
      PaddingFits(|payload|, WriterBlock(mode), randomPadding && payload != [], if payload == [] then 0 else payload[0]);
      Message(payload, noise[..PaddingOf(mode, randomPadding, payload)])
    }

    /** The send of a freshly framed packet, and what is kept when it is not taken whole. */
    method SendFirst(data: array<byte>, dataLen: nat, totalLength: nat) returns (rc: WriteResult)
      requires FramesOk() && outbuf != null && totalLength == outbuf.Length && !broken
      requires !torn ==> Framed() == wire + outbuf[..]
      modifies this`sends, this`wire, this`outbuf, this`ototalNum, this`osent, this`odata, this`olen, this`broken
      ensures Valid() && (broken <==> rc == Fail)
      ensures var a := Given(old(sends), totalLength);
              && rc == Answered(a, totalLength) && wire == old(wire) + old(outbuf[..Gone(a)]) && sends == Later(old(sends))
              && (rc == None <==> outbuf == null) && (rc == Eagain ==> outbuf == old(outbuf) && ototalNum - osent == totalLength - Gone(a))
      ensures rc == Eagain ==> odata == data && olen == dataLen
    {
      hide Wire, AllPadded, Mode.Valid;
      ghost var frame, w := outbuf[..], wire;
      var sent := Send(outbuf, 0, totalLength);
      assert frame[..Gone(sent)] == frame[0..Gone(sent)] && w + [] == w;
      if sent == Took(totalLength) {
        odata, olen, outbuf := null, 0, null;
        Halves(w, frame, totalLength);
        return None;
      }
      if sent == WouldBlock || (sent.Took? && sent.n > 0) {
        odata, olen := data, dataLen;
        osent := if sent.Took? then sent.n else 0;
        ototalNum := totalLength;
        Halves(w, frame, osent);
        return Eagain;
      }
      broken := true;
      return Fail;
    }

    /** A packet that does not have to wait behind another (lines 692-811). */
    method WriteNew(data: array<byte>, dataLen: nat, noise: seq<byte>) returns (rc: WriteResult, ghost frame: seq<byte>)
      requires Valid() && !broken && outbuf == null
      requires dataLen <= data.Length && dataLen < MAXINT - 0x1000 && |noise| >= 255
      modifies this`outbuf, this`cs, this`seqno, this`msgs
      modifies this`sends, this`wire, this`ototalNum, this`osent, this`odata, this`olen, this`broken
      ensures Valid() && msgs == old(msgs) + [NextMessage(data[..dataLen], noise)]
      ensures Framed() == old(Framed()) + frame && frame != []
      ensures seqno == (old(seqno) + 1) % TWO32
      ensures mode.Encrypted? ==>
                && mode.keys.macLen <= |frame|
                && frame[|frame| - mode.keys.macLen..] ==
                     mode.keys.hash(old(seqno), Plaintext(NextMessage(data[..dataLen], noise)))
      ensures var a := Given(old(sends), |frame|);
              && rc == Answered(a, |frame|) && (broken <==> rc == Fail) && wire == old(wire) + frame[..Gone(a)]
              && sends == Later(old(sends))
              && (rc == Eagain ==> outbuf != null && ototalNum - osent == |frame| - Gone(a))
      ensures rc == Eagain ==> odata == data && olen == dataLen
      ensures rc == None ==> outbuf == null
    {
      ghost var w := wire;
      var totalLength := FramePacket(data, dataLen, noise);
      hide Wire, AllPadded, FramesOk;
      frame := outbuf[..];
      ghost var gone := Gone(Given(sends, totalLength));
      assert frame[..gone] == outbuf[..gone];
      rc := SendFirst(data, dataLen, totalLength);
    }

    /** `libssh2_packet_write`. A new packet is framed once, with the next number, and appended to the stream,
        and fails only when its send fails or takes nothing; a packet that waits is carried on only for the call that
        left it. The stream is torn just when a resumed send takes a part of what is left. */
    method PacketWrite(data: array<byte>, dataLen: nat, noise: seq<byte>) returns (rc: WriteResult, ghost frame: seq<byte>)
      requires Valid() && !broken && dataLen <= data.Length && dataLen < MAXINT - 0x1000 && |noise| >= 255
      modifies this
      ensures Valid()
      ensures old(outbuf) == null ==>
                && msgs == old(msgs) + [NextMessage(old(data[..dataLen]), noise)] && torn == old(torn)
                && Framed() == old(Framed()) + frame && frame != [] && seqno == (old(seqno) + 1) % TWO32
                && (mode.Encrypted? ==>
                      && mode.keys.macLen <= |frame|
                      && frame[|frame| - mode.keys.macLen..] ==
                           mode.keys.hash(old(seqno), Plaintext(NextMessage(old(data[..dataLen]), noise))))
                && (var a := Given(old(sends), |frame|);
                    && rc == Answered(a, |frame|) && (broken <==> rc == Fail) && wire == old(wire) + frame[..Gone(a)]
                    && sends == Later(old(sends))
                    && (rc == Eagain ==> outbuf != null && ototalNum - osent == |frame| - Gone(a)))
                && (rc == Eagain ==> odata == data && olen == dataLen)
      ensures old(outbuf) != null ==>
                && msgs == old(msgs) && !broken && seqno == old(seqno)
                && if old(data != odata || dataLen != olen)
                   then rc == BadUse && wire == old(wire) && torn == old(torn)
                   else
                     var left := old(ototalNum - osent);
                     var a := Given(old(sends), left);
                     && rc == (if a == WouldBlock then Eagain else if a == Failed then Fail else None)
                     && wire == old(wire) + old(outbuf[osent..osent + Gone(a)])
                     && (torn <==> old(torn) || (a.Took? && a.n < left)) && sends == Later(old(sends))
      ensures rc == None && !old(torn) ==> (torn <==> outbuf != null) && (torn <==> wire != Framed())
    {
      hide Wire, AllPadded;
      frame := [];
      if outbuf != null {
        rc := SendExisting(data, dataLen);
      } else {
        rc, frame := WriteNew(data, dataLen, noise);
      }
    }
  }

  lemma SmallFrame(e: End, msg: Message)
    requires Padded(Plain, false, msg) && |msg.payload| == 1
    ensures |msg.padding| == 10 && |Frame(Plain, e, msg).0| == 16 && AllPadded(Plain, false, [msg])
    ensures Wire(Plain, false, e, []).0 == [] && Wire(Plain, false, e, [msg]).0 == Frame(Plain, e, msg).0
  {
    PaddedLengths(Plain, false, msg);
    WireEmpty(Plain, false, e);
    WireSnoc(Plain, false, e, [], msg);
    assert [] + [msg] == [msg] && [] + Frame(Plain, e, msg).0 == Frame(Plain, e, msg).0;
  }

  /** A packet of 16 bytes, ten of which are sent; of the rest, sent for it later, three are taken. That
      is answered as success, and three bytes of the packet never come. */
  method TornPacket() returns (rc: WriteResult, sent: seq<byte>, ghost meant: seq<byte>)
    ensures rc == None && |sent| == 13 && |meant| == 16 && sent == meant[..13]
  {
    hide Wire, Frame, AllPadded, Padded;
    var w := new Writer(Plain, false, End([], 0), [Took(10), Took(3)]);
    var data := new byte[1][94];
    var noise := seq(255, _ => 0);
    ghost var msg := w.NextMessage(data[..1], noise);
    SmallFrame(w.origin, msg);
    assert w.Framed() == [];
    var first, frame := w.PacketWrite(data, 1, noise);
    assert w.msgs == [] + [msg] == [msg] && frame == [] + frame;
    assert w.wire + w.outbuf[w.osent..] == frame && |w.wire| == 10;
    ghost var rest := w.outbuf[w.osent..];
    assert w.outbuf[w.osent..w.osent + 3] == rest[..3];
    var second, _ := w.PacketWrite(data, 1, noise);
    return second, w.wire, w.Framed();
  }
}
