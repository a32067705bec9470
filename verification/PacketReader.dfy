/** The resumable reassembler of transport.c: a 4096-byte window on the stream, decryption in
    whole blocks, a raw MAC tail, and re-entry after EAGAIN at any point. */
module PacketReader {
  import opened Bytes
  import opened Cipher
  import opened TransportSpec
  import opened PartialPacket
  import opened Socket
  import opened Scripts

  const PACKETBUFSIZE := 4096

  /** The states of `libssh2_nonblocking_states` used here. */
  datatype NbState = Idle | Created | Jump1

  /** What `libssh2_packet_add` answers. `Busy`: EAGAIN with its own state not idle, the packet
      not yet linked. `Rekeying`: EAGAIN from a key exchange it started after linking the packet,
      having reset all read states. `Rejected`: any other failure. */
  datatype AddOutcome = Accepted | Busy | Rekeying | Rejected

  datatype ReadResult = Type(t: byte) | Eagain | PacketTooBig | PacketFail

  /** The received bytes are those of delivered packets, those taken of the next one, and those in
      the window of `buf`. */
  ghost predicate Accounted(received: seq<byte>, taken: seq<byte>, raw: seq<byte>, buf: seq<byte>, r: nat, w: nat) {
    r <= w <= |buf| && received == taken + raw + buf[r..w]
  }

  lemma AccountedFront(received: seq<byte>, taken: seq<byte>, raw: seq<byte>, buf: seq<byte>, r: nat, w: nat)
    requires Accounted(received, taken, raw, buf, r, w)
    ensures Accounted(received, taken, raw, Splice(buf, 0, buf[r..w]), 0, w - r)
    ensures r == w ==> Accounted(received, taken, raw, buf, 0, 0)
    ensures Splice(buf, 0, buf[r..w])[..w - r] == buf[r..w]
  {
  }

  lemma AccountedMore(received: seq<byte>, taken: seq<byte>, raw: seq<byte>, buf: seq<byte>, w: nat,
                      buf': seq<byte>, w': nat)
    requires Accounted(received, taken, raw, buf, 0, w) && w <= w' <= |buf'| && buf'[..w] == buf[..w]
    ensures Accounted(received + buf'[w..w'], taken, raw, buf', 0, w')
  {
    assert buf'[0..w'] == buf[0..w] + buf'[w..w'];
    var gone := taken + raw;
    assert gone + (buf[0..w] + buf'[w..w']) == gone + buf[0..w] + buf'[w..w'];
  }

  /** Bytes leave the window as they are taken; decrypting them in place does no harm. */
  lemma AccountedTake(received: seq<byte>, taken: seq<byte>, raw: seq<byte>, buf: seq<byte>, r: nat, w: nat,
                      plain: seq<byte>)
    requires Accounted(received, taken, raw, buf, r, w) && r + |plain| <= w
    ensures Accounted(received, taken, raw + buf[r..r + |plain|], Splice(buf, r, plain), r + |plain|, w)
  {
    var n := |plain|;
    assert buf[r..w] == buf[r..r + n] + buf[r + n..w];
    assert taken + raw + (buf[r..r + n] + buf[r + n..w]) == taken + (raw + buf[r..r + n]) + buf[r + n..w];
    assert Splice(buf, r, plain)[r + n..w] == buf[r + n..w];
  }

  /** A first block the parser does not call malformed holds usable lengths, or is too big. */
  lemma HeadAccepted(m: Mode, e: End, window: seq<byte>, plain: seq<byte>)
    requires m.Valid() && m.HeadLen() <= |window| && ParseOne(m, e, window) != Malformed
    requires plain == m.Transform(e.cs, window[..m.HeadLen()]).1 && |plain| == m.HeadLen()
    ensures U32Of(plain) >= 2
    ensures if U32Of(plain) - 1 + m.MacLen() > MAXPAYLOAD then ParseOne(m, e, window) == TooBig
            else LengthsOk(m, U32Of(plain), plain[4])
  {
  }

  lemma SameWord(block: seq<byte>, plain: seq<byte>)
    requires 5 <= |plain| <= |block| && block[..|plain|] == plain
    ensures U32Of(block) == U32Of(plain) == U32Of(plain[..5]) && block[4] == plain[4]
  {
    assert forall i | 0 <= i < 5 :: block[i] == block[..|plain|][i] == plain[i];
  }

  lemma MidTake(m: Mode, e: End, raw: seq<byte>, head: seq<byte>, body: seq<byte>, cs: CipherState,
                decode: bool, chunk: seq<byte>, plain: seq<byte>, cs': CipherState)
    requires Mid(m, e, raw, head, body, cs) && |plain| == |chunk|
    requires (cs', plain) == Decoded(m, decode, cs, chunk)
    requires decode ==> m.Cut(|chunk|) && |body| + |chunk| <= U32Of(head) - 1
    requires !decode && m.Encrypted? ==> U32Of(head) - 1 <= |body|
    requires |body| + |chunk| <= U32Of(head) - 1 + m.MacLen()
    ensures Mid(m, e, raw + chunk, head, body + plain, cs')
  {
    if decode || m.Plain? {
      MidDecode(m, e, raw, head, body, cs, chunk, plain, cs');
    } else {
      MidTag(m, e, raw, head, body, cs, chunk);
    }
  }

  lemma ParsedPacket(m: Mode, e: End, s: seq<byte>, packet: Packet, next: End)
    requires m.Valid() && ParseOne(m, e, s) == Got(packet, next, |s|)
    ensures ParseAll(m, e, s) == Parsed([packet], next, [])
  {
    hide ParseOne;
    EmptyIncomplete(m, next);
    assert s[|s|..] == [];
  }

  /** Whether the MAC received behind a packet is the one computed over it. */
  function MacVerdict(m: Mode, seqno: u32, head: seq<byte>, body: seq<byte>): MacState
    requires |head| >= 4 && 0 <= U32Of(head) - 1 <= |body|
  {
    var n := U32Of(head) - 1;
    if m.Tag(seqno, head + body[..n]) == body[n..] then Confirmed else Invalid
  }

  lemma MidVerdict(m: Mode, e: End, raw: seq<byte>, head: seq<byte>, body: seq<byte>, cs: CipherState)
    requires Mid(m, e, raw, head, body, cs) && |body| == U32Of(head) - 1 + m.MacLen()
    ensures |head| == 5 && 0 <= U32Of(head) - 1 - head[4] <= |body|
    ensures ParseOne(m, e, raw) ==
            Got(Packet(body[..U32Of(head) - 1 - head[4]], MacVerdict(m, e.seqno, head, body)),
                End(cs, Next(e.seqno)), |raw|)
  {
    MidComplete(m, e, raw, head, body, cs);
  }

  /** What `Mid` tells about the lengths. */
  lemma MidValid(m: Mode, e: End, raw: seq<byte>, head: seq<byte>, body: seq<byte>, cs: CipherState)
    requires Mid(m, e, raw, head, body, cs)
    ensures m.Valid() && |head| == 5 && U32Of(head) >= 2 && |body| <= U32Of(head) - 1 + m.MacLen()
    ensures |raw| == 5 + |body|
  {
  }

  /** A packet short of body bytes is short of at least a whole block. */
  lemma MidBlockLeft(m: Mode, e: End, raw: seq<byte>, head: seq<byte>, body: seq<byte>, cs: CipherState)
    requires Mid(m, e, raw, head, body, cs)
    ensures m.Encrypted? && |body| < U32Of(head) - 1 ==> m.HeadLen() <= U32Of(head) - 1 - |body|
  {
    if m.Encrypted? && |body| < U32Of(head) - 1 {
      MidAligned(m, e, raw, head, body, cs);
      AlignedBlock(U32Of(head) - 1 - |body|, m.keys.crypt.bs);
    }
  }

  /** The bytes `taken` parse into exactly the packets `delivered`, leaving state `begun`; no packet
      with a wrong MAC is among them unless the application lets it pass. */
  ghost predicate Agrees(m: Mode, tolerate: bool, origin: End, taken: seq<byte>, delivered: seq<Packet>, begun: End) {
    && m.Valid()
    && ParseAll(m, origin, taken) == Parsed(delivered, begun, [])
    && (tolerate || forall p <- delivered :: p.mac == Confirmed)
  }

  lemma AgreesMore(m: Mode, tolerate: bool, origin: End, taken: seq<byte>, delivered: seq<Packet>, begun: End,
                   raw: seq<byte>, packet: Packet, next: End)
    requires Agrees(m, tolerate, origin, taken, delivered, begun) && (packet.mac == Confirmed || tolerate)
    requires ParseOne(m, begun, raw) == Got(packet, next, |raw|)
    ensures Agrees(m, tolerate, origin, taken + raw, delivered + [packet], next) && |raw| > 0
  {
    hide ParseOne, ParseAll;
    ParsedPacket(m, begun, raw, packet, next);
    ParseAllConcat(m, origin, taken, raw);
  }

  lemma AccountedWhole(received: seq<byte>, taken: seq<byte>, raw: seq<byte>, buf: seq<byte>, r: nat, w: nat)
    requires Accounted(received, taken, raw, buf, r, w)
    ensures Accounted(received, taken + raw, [], buf, r, w)
  {
    assert taken + raw + [] == taken + raw;
  }

  /** Bytes taken from the window: decrypted, or as they are. */
  function Decoded(m: Mode, decode: bool, cs: CipherState, chunk: seq<byte>): (CipherState, seq<byte>)
    requires m.Valid()
  {
    if decode then m.Transform(cs, chunk) else (cs, chunk)
  }

  /** A call of `decrypt`: the cipher and its context, the ciphertext, and source and destination
      as they were. */
  datatype Job = Job(crypt: Crypt, cs: CipherState, data: seq<byte>,
                     src: seq<byte>, srcAt: nat, dst: seq<byte>, dstAt: nat) {
    ghost predicate Valid() {
      && crypt.Valid() && Aligned(|data|, crypt.bs)
      && srcAt + |data| <= |src| && data == src[srcAt..srcAt + |data|]
      && dstAt + |data| <= |dst|
    }
  }

  /** The first `i` bytes are done. */
  ghost predicate Halfway(j: Job, i: nat, cs: CipherState, src: seq<byte>, dst: seq<byte>) {
    && j.Valid() && i <= |j.data| && Aligned(i, j.crypt.bs)
    && var done := Blocks(j.crypt, j.cs, j.data[..i]);
    && |done.1| == i && cs == done.0
    && src == Splice(j.src, j.srcAt, done.1) && dst == Splice(j.dst, j.dstAt, done.1)
  }

  lemma HalfwayStart(j: Job)
    requires j.Valid()
    ensures Halfway(j, 0, j.cs, j.src, j.dst)
  {
    assert j.data[..0] == [];
    BlocksNone(j.crypt, j.cs);
    SpliceNone(j.src, j.srcAt);
    SpliceNone(j.dst, j.dstAt);
  }

  lemma HalfwayStep(j: Job, i: nat, cs: CipherState, src: seq<byte>, dst: seq<byte>)
    requires Halfway(j, i, cs, src, dst) && |j.data| - i >= j.crypt.bs
    ensures |src| == |j.src| && |dst| == |j.dst|
    ensures j.srcAt + i + j.crypt.bs <= |src| && j.dstAt + i + j.crypt.bs <= |dst|
    ensures var out := j.crypt.Step(cs, src[j.srcAt + i..j.srcAt + i + j.crypt.bs]);
            |out.1| == j.crypt.bs &&
            Halfway(j, i + j.crypt.bs, out.0, Splice(src, j.srcAt + i, out.1), Splice(dst, j.dstAt + i, out.1))
  {
    hide Blocks, Splice;
    var done := Blocks(j.crypt, j.cs, j.data[..i]).1;
    SpliceRest(j.src, j.srcAt, |j.data|, done, j.crypt.bs);
    BlocksExtend(j.crypt, j.cs, j.data, i);
    var out := j.crypt.Step(cs, j.data[i..i + j.crypt.bs]);
    SpliceMore(j.src, j.srcAt, done, out.1);
    SpliceMore(j.dst, j.dstAt, done, out.1);
    AlignedSum(i, j.crypt.bs, j.crypt.bs);
  }

  lemma HalfwayEnd(j: Job, i: nat, cs: CipherState, src: seq<byte>, dst: seq<byte>)
    requires Halfway(j, i, cs, src, dst) && |j.data| - i < j.crypt.bs
    ensures var r := Blocks(j.crypt, j.cs, j.data);
            |r.1| == |j.data| && cs == r.0 &&
            src == Splice(j.src, j.srcAt, r.1) && dst == Splice(j.dst, j.dstAt, r.1)
  {
    AlignedSum(i, |j.data| - i, j.crypt.bs);
    if i < |j.data| {
      AlignedBlock(|j.data| - i, j.crypt.bs);
    }
    assert j.data[..i] == j.data;
  }

  class Reader {
    const mode: Mode
    const sock: Inbound
    const buf: array<byte>
    var readidx: nat
    var writeidx: nat
    var init: seq<byte>
    var packetLength: int
    var paddingLength: int
    var dataNum: nat
    var totalNum: nat
    var payload: array<byte>
    var wptr: nat
    var cs: CipherState
    var seqno: u32
    var fullpacketState: NbState
    var fullpacketMac: MacState
    var fullpacketPayloadLen: int
    var fullpacketType: byte
    var readPackState: NbState
    var packAddIdle: bool
    var adds: seq<AddOutcome>
    /** Whether the application's `macerror` callback lets packets with a wrong MAC pass. */
    const tolerateMac: bool

    /** The packets handed over so far (linked into the brigade). */
    var delivered: seq<Packet>

    /** The state the stream began in; the bytes of the delivered packets and the state after
        them; the bytes taken of the packet under way and its first five decoded. `broken` after a fatal return. */
    ghost const origin: End
    ghost var taken: seq<byte>
    ghost var begun: End
    ghost var raw: seq<byte>
    ghost var head: seq<byte>
    ghost var broken: bool

    constructor (mode: Mode, sock: Inbound, adds: seq<AddOutcome>, tolerateMac: bool, e: End)
      requires mode.Valid() && sock.received == [] && !sock.lost
      ensures Valid() && !broken && fresh(buf) && fresh(payload)
      ensures this.mode == mode && this.sock == sock && this.tolerateMac == tolerateMac && origin == e
      ensures delivered == []
    {
      this.mode, this.sock, this.adds, this.tolerateMac, origin := mode, sock, adds, tolerateMac, e;
      buf := new byte[PACKETBUFSIZE];
      payload := new byte[0];
      readidx, writeidx, dataNum, totalNum, wptr := 0, 0, 0, 0, 0;
      init, packetLength, paddingLength := [0, 0, 0, 0, 0], 0, 0;
      cs, seqno := e.cs, e.seqno;
      fullpacketState, readPackState, packAddIdle := Idle, Idle, true;
      fullpacketMac, fullpacketPayloadLen, fullpacketType := Confirmed, 0, 0;
      delivered, begun, taken, raw, head, broken := [], e, [], [], [0, 0, 0, 0, 0], false;
      new;
      EmptyIncomplete(mode, e);
    }

    /** The part of the buffer that holds bytes not yet taken. */
    ghost function Window(): seq<byte>
      reads this`readidx, this`writeidx, buf
      requires readidx <= writeidx <= buf.Length
    {
      buf[readidx..writeidx]
    }

    /** Every received byte is accounted for; in particular `libssh2_packet_read`'s assert that
        the read index never passes the write index. */
    ghost predicate WindowOk()
      reads this`readidx, this`writeidx, this`taken, this`raw, sock`received, buf
    {
      && buf.Length == PACKETBUFSIZE && readidx <= writeidx <= PACKETBUFSIZE
      && Accounted(sock.received, taken, raw, buf[..], readidx, writeidx)
    }

    /** What has been delivered is what the parser finds in the bytes it took. */
    ghost predicate DeliveredOk()
      reads this`taken, this`delivered, this`begun
    {
      mode.Valid() && Agrees(mode, tolerateMac, origin, taken, delivered, begun)
    }

    /** Between two packets. */
    ghost predicate AtBoundary()
      reads this`totalNum, this`raw, this`cs, this`seqno, this`begun, this`fullpacketState, this`readPackState
    {
      totalNum == 0 && raw == [] && End(cs, seqno) == begun && fullpacketState == Idle && readPackState == Idle
    }

    /** Part of a packet is in. */
    ghost predicate InPacket()
      reads this`totalNum, this`dataNum, this`wptr, this`payload, this`begun, this`raw, this`head, this`init, this`cs,
            this`packetLength, this`paddingLength, payload
    {
      wptr == dataNum && Holding(dataNum)
    }

    /** The first `n` bytes of a packet's buffer are filled. */
    ghost predicate Holding(n: nat)
      reads this`totalNum, this`payload, this`begun, this`raw, this`head, this`init, this`cs,
            this`packetLength, this`paddingLength, payload
    {
      && payload != buf
      && 0 < totalNum == payload.Length && n <= totalNum
      && Mid(mode, begun, raw, head, payload[..n], cs)
      && (mode.Encrypted? ==> init == head)
      && packetLength == U32Of(head) && paddingLength == head[4]
      && totalNum == packetLength - 1 + mode.MacLen()
    }

    ghost predicate Collecting()
      reads this`totalNum, this`dataNum, this`wptr, this`payload, this`begun, this`raw, this`head, this`init, this`cs,
            this`packetLength, this`paddingLength, payload
      reads this`seqno, this`fullpacketState, this`readPackState
    {
      InPacket() && seqno == begun.seqno && fullpacketState == Idle && readPackState == Idle
    }

    /** A packet is complete, its MAC checked and its number used up, but it is not yet accepted. */
    ghost predicate Checked()
      reads this`totalNum, this`dataNum, this`wptr, this`payload, this`begun, this`raw, this`head, this`init, this`cs,
            this`packetLength, this`paddingLength, payload
      reads this`seqno, this`fullpacketState, this`fullpacketPayloadLen, this`fullpacketMac, this`fullpacketType
    {
      && InPacket() && dataNum == totalNum
      && fullpacketState == Created
      && 0 <= fullpacketPayloadLen <= payload.Length
      && fullpacketType == payload[0]
      && ParseOne(mode, begun, raw) ==
         Got(Packet(payload[..fullpacketPayloadLen], fullpacketMac), End(cs, seqno), |raw|)
    }

    /** Collecting, with everything taken from the window that can be. */
    ghost predicate Waiting()
      reads this, payload
    {
      Collecting() && writeidx - readidx < mode.HeadLen() && writeidx - readidx < totalNum - dataNum
    }

    /** The object invariant between calls. */
    ghost predicate Valid()
      reads this, sock, buf, payload
    {
      broken ||
      (!sock.lost && WindowOk() && DeliveredOk() &&
       (AtBoundary() || Waiting() || (Checked() && readPackState == Jump1)))
    }

    /** One turn of `decrypt`'s loop: a block decrypted in place, then copied. */
    method DecryptBlock(src: nat, dest: array<byte>, dst: nat, ghost job: Job, ghost i: nat)
      requires mode.Encrypted? && job.crypt == mode.keys.crypt && dest != buf
      requires Halfway(job, i, cs, buf[..], dest[..]) && |job.data| - i >= job.crypt.bs
      requires src == job.srcAt + i && dst == job.dstAt + i
      modifies this`cs, buf, dest
      ensures Halfway(job, i + job.crypt.bs, cs, buf[..], dest[..])
    {
      hide Halfway;
      HalfwayStep(job, i, cs, buf[..], dest[..]);
      var bs := mode.keys.crypt.bs;
      assert buf[src..src + bs] == buf[..][src..src + bs];
      var out := mode.keys.crypt.Step(cs, buf[src..src + bs]);
      cs := out.0;
      StoreBytes(buf, src, out.1);
      assert buf[src..src + bs] == out.1;
      StoreBytes(dest, dst, buf[src..src + bs]);
    }

    /** `decrypt`: whole blocks, in place in the window and copied to the packet. */
    method Decrypt(src: nat, dest: array<byte>, dst: nat, len: nat)
      requires mode.Encrypted? && mode.Valid() && dest != buf
      requires src + len <= buf.Length && dst + len <= dest.Length
      requires mode.Cut(len)
      modifies this`cs, buf, dest
      ensures ghost var r := mode.Transform(old(cs), old(buf[src..src + len]));
              |r.1| == len && cs == r.0 &&
              buf[..] == Splice(old(buf[..]), src, r.1) && dest[..] == Splice(old(dest[..]), dst, r.1)
    {
      var bs := mode.HeadLen();
      ghost var job := Job(mode.keys.crypt, cs, buf[src..src + len], buf[..], src, dest[..], dst);
      assert job.Valid() && bs > 0;
      hide Halfway;
      HalfwayStart(job);
      var i := 0;
      while len - i >= bs
        invariant 0 <= i <= len
        invariant Halfway(job, i, cs, buf[..], dest[..])
        decreases len - i
      {
        DecryptBlock(src + i, dest, dst + i, job, i);
        i := i + bs;
      }
      HalfwayEnd(job, i, cs, buf[..], dest[..]);
    }

    /** What is left of the window is moved to its front. */
    method Compact()
      requires WindowOk()
      modifies this`readidx, this`writeidx, buf
      ensures WindowOk() && readidx == 0 && writeidx == old(writeidx - readidx)
    {
      hide Accounted, Splice;
      var remainbuf := writeidx - readidx;
      AccountedFront(sock.received, taken, raw, buf[..], readidx, writeidx);
      if remainbuf > 0 {
        assert buf[readidx..writeidx] == buf[..][readidx..writeidx];
        StoreBytes(buf, 0, buf[readidx..writeidx]);
      }
      readidx, writeidx := 0, remainbuf;
    }

    /** Then the network is asked for more. */
    method Refill() returns (r: RecvResult)
      requires WindowOk() && writeidx - readidx < PACKETBUFSIZE
      modifies this`readidx, this`writeidx, buf, sock
      ensures WindowOk()
      ensures sock.received + Coming(sock.script) == old(sock.received + Coming(sock.script))
      ensures delivered == old(delivered) && taken == old(taken) && begun == old(begun)
      ensures sock.lost == (old(sock.lost) || r.Lost?) && (!old(sock.lost) ==> sock.Owes(old(sock.Due())))
      ensures old(Lasting(sock.script)) ==> Lasting(sock.script) && !r.Lost?
      ensures sock.Weight() <= old(sock.Weight()) && (r.Bytes? ==> sock.Weight() < old(sock.Weight()))
      ensures r.Again? ==> sock.Weight() < old(sock.Weight()) || sock.script == []
      ensures !r.Bytes? ==> sock.received == old(sock.received)
      ensures !r.Bytes? ==> writeidx - readidx == old(writeidx - readidx)
      ensures readidx == 0 && writeidx <= buf.Length == 4096
    {
      hide Accounted;
      Compact();
      ghost var before, received := buf[..], sock.received;
      r := sock.Recv(buf, writeidx, PACKETBUFSIZE - writeidx);
      if r.Bytes? {
        AccountedMore(received, taken, raw, before, writeidx, buf[..], writeidx + r.n);
        writeidx := writeidx + r.n;
      } else {
        assert buf[..] == before;
      }
    }

    /** `n` bytes of the window, decrypted or as they are, go to `dest`. */
    method Move(decode: bool, dest: array<byte>, dst: nat, n: nat)
      requires mode.Valid() && readidx + n <= buf.Length && dst + n <= dest.Length && dest != buf
      requires decode ==> mode.Cut(n)
      modifies this`cs, buf, dest
      ensures var r := Decoded(mode, decode, old(cs), old(buf[..])[readidx..readidx + n]);
              |r.1| == n && cs == r.0 &&
              buf[..] == Splice(old(buf[..]), readidx, r.1) && dest[..] == Splice(old(dest[..]), dst, r.1)
    {
      ghost var b0 := buf[..];
      ghost var chunk := b0[readidx..readidx + n];
      assert chunk == buf[readidx..readidx + n];
      hide Blocks, Splice;
      if decode && mode.Encrypted? {
        Decrypt(readidx, dest, dst, n);
      } else {
        SpliceSelf(b0, readidx, n);
        StoreBytes(dest, dst, buf[readidx..readidx + n]);
      }
    }

    /** The next `n` bytes of the window are taken. */
    method Fetch(decode: bool, dest: array<byte>, dst: nat, n: nat) returns (ghost chunk: seq<byte>, ghost plain: seq<byte>)
      requires WindowOk() && mode.Valid() && n <= writeidx - readidx && dst + n <= dest.Length && dest != buf
      requires decode ==> mode.Cut(n)
      modifies this`readidx, this`cs, this`raw, buf, dest
      ensures WindowOk() && readidx == old(readidx) + n
      ensures chunk == old(Window())[..n] && raw == old(raw) + chunk
      ensures |plain| == |chunk| == n && (cs, plain) == Decoded(mode, decode, old(cs), chunk)
      ensures dest[..] == Splice(old(dest[..]), dst, plain)
      ensures buf[..] == Splice(old(buf[..]), old(readidx), plain)
    {
      hide Accounted, Blocks, Splice, Decoded, Mode.Valid, Mode.Cut;
      ghost var b0 := buf[..];
      chunk := b0[readidx..readidx + n];
      assert chunk == Window()[..n];
      plain := Decoded(mode, decode, cs, chunk).1;
      Move(decode, dest, dst, n);
      AccountedTake(sock.received, taken, raw, b0, readidx, writeidx, plain);
      readidx := readidx + n;
      raw := raw + chunk;
    }

    /** Lengths read from the first block; the packet's buffer is allocated and holds the rest of
        that block. */
    method StartPacket(block: array<byte>, ghost plain: seq<byte>) returns (ok: bool)
      requires mode.Valid() && block.Length == 32 && block[..mode.HeadLen()] == plain
      requires |raw| == |plain| == mode.HeadLen() && (cs, plain) == mode.Transform(begun.cs, raw)
      requires U32Of(plain) >= 2
      requires U32Of(plain) - 1 + mode.MacLen() <= MAXPAYLOAD ==> LengthsOk(mode, U32Of(plain), plain[4])
      modifies this`packetLength, this`paddingLength, this`totalNum, this`payload, this`wptr, this`dataNum, this`head
      ensures ok <==> U32Of(plain) - 1 + mode.MacLen() <= MAXPAYLOAD
      ensures !ok ==> payload == old(payload)
      ensures ok ==> fresh(payload) && 0 < totalNum == payload.Length == packetLength - 1 + mode.MacLen()
      ensures ok ==> wptr == dataNum == mode.HeadLen() - 5 <= totalNum
      ensures ok ==> head == plain[..5] && packetLength == U32Of(head) && paddingLength == head[4]
      ensures ok ==> Mid(mode, begun, raw, head, payload[..dataNum], cs)
    {
      hide Mid, Blocks, U32Of, Mode.Transform;
      var blocksize := mode.HeadLen();
      SameWord(block[..], plain);
      packetLength := U32Of(block[..]);
      paddingLength := block[4];
      totalNum := packetLength - 1 + mode.MacLen();
      if totalNum > MAXPAYLOAD {
        return false;
      }
      payload := new byte[totalNum];
      wptr := 0;
      if blocksize > 5 {
        assert block[5..blocksize] == plain[5..];
        StoreBytes(payload, wptr, block[5..blocksize]);
        SplicePart(payload[..], 0, plain[5..], blocksize - 5);
        wptr := wptr + blocksize - 5;
      }
      dataNum := wptr;
      head := plain[..5];
      assert payload[..dataNum] == payload[..][..dataNum] == plain[5..];
      MidBegin(mode, begun, raw, plain, cs);
      return true;
    }

    /** The first block of a packet, decoded into a buffer of its own. */
    method DecodeHead() returns (block: array<byte>, ghost plain: seq<byte>)
      requires WindowOk() && mode.Valid() && raw == [] && mode.HeadLen() <= writeidx - readidx
      modifies this`readidx, this`init, this`cs, this`raw, buf
      ensures fresh(block) && block.Length == 32 && |plain| == mode.HeadLen() && block[..mode.HeadLen()] == plain
      ensures raw == old(Window())[..mode.HeadLen()] && (cs, plain) == mode.Transform(old(cs), raw)
      ensures WindowOk() && readidx == old(readidx) + mode.HeadLen()
      ensures mode.Encrypted? ==> init == plain[..5]
    {
      var blocksize, at := mode.HeadLen(), readidx;
      block := new byte[32];
      ghost var block0, buf0 := block[..], buf[..];
      ghost var chunk;
      HeadCut(mode);
      chunk, plain := Fetch(true, block, 0, blocksize);
      assert raw == chunk;
      if mode.Encrypted? {
        init := buf[at..at + 5];
        SplicePart(buf0, at, plain, 5);
        assert init == buf[..][at..at + 5];
      }
      hide Accounted, Blocks, Splice;
      SplicePart(block0, 0, plain, blocksize);
      assert block[..blocksize] == block[..][0..blocksize] == plain;
    }

    /** The start of a packet. */
    method TakeHead() returns (ok: bool)
      requires WindowOk() && AtBoundary() && mode.Valid()
      requires mode.HeadLen() <= writeidx - readidx
      requires ParseOne(mode, begun, Window()) != Malformed
      modifies this`readidx, this`init, this`packetLength, this`paddingLength, this`totalNum, this`payload,
               this`wptr, this`dataNum, this`cs, this`raw, this`head, buf
      ensures delivered == old(delivered) && taken == old(taken) && begun == old(begun)
      ensures ok ==> WindowOk() && Collecting() && fresh(payload)
      ensures ok ==> readidx == old(readidx) + mode.HeadLen()
      ensures !ok ==> ParseOne(mode, begun, old(Window())) == TooBig && payload == old(payload)
    {
      hide Accounted, Mid, Blocks, ParseOne, LengthsOk, U32Of;
      ghost var window := Window();
      var block, plain := DecodeHead();
      HeadAccepted(mode, begun, window, plain);
      ok := StartPacket(block, plain);
    }

    /** `n` more bytes of the window are put behind those of the packet. */
    method Feed(decode: bool, n: nat)
      requires WindowOk() && Collecting() && n <= writeidx - readidx
      requires decode ==> mode.Cut(n) && dataNum + n <= packetLength - 1
      requires !decode ==> mode.Plain? || packetLength - 1 <= dataNum
      requires dataNum + n <= totalNum
      modifies this`readidx, this`cs, this`raw, buf, payload
      ensures WindowOk() && Holding(dataNum + n)
      ensures readidx == old(readidx) + n
    {
      hide Accounted, Mid, Decoded, Splice, U32Of, Window, WindowOk, Aligned;
      ghost var e, raw0, head0, cs0 := begun, raw, head, cs;
      ghost var body, payload0 := payload[..dataNum], payload[..];
      MidValid(mode, e, raw0, head0, body, cs0);
      ghost var chunk, plain := Fetch(decode, payload, wptr, n);
      MidTake(mode, e, raw0, head0, body, cs0, decode, chunk, plain, cs);
      SplicePart(payload0, dataNum, plain, n);
      ghost var now := payload[..];
      assert payload[..dataNum + n] == now[..dataNum + n];
    }

    /** `n` more bytes of the window go to the packet. */
    method Take(decode: bool, n: nat)
      requires WindowOk() && Collecting() && n <= writeidx - readidx
      requires decode ==> mode.Cut(n) && dataNum + n <= packetLength - 1
      requires !decode ==> mode.Plain? || packetLength - 1 <= dataNum
      requires dataNum + n <= totalNum
      modifies this`readidx, this`cs, this`raw, this`wptr, this`dataNum, buf, payload
      ensures WindowOk() && Collecting()
      ensures readidx == old(readidx) + n && dataNum == old(dataNum) + n
    {
      hide Holding, WindowOk;
      Feed(decode, n);
      wptr := wptr + n;
      dataNum := dataNum + n;
    }

    /** As much of the window as can be used goes to the packet under way (lines 487-555). */
    method Absorb()
      requires WindowOk() && Collecting() && readidx <= writeidx
      modifies this`readidx, this`cs, this`raw, this`wptr, this`dataNum, buf, payload
      ensures WindowOk() && Collecting()
      ensures delivered == old(delivered) && taken == old(taken) && begun == old(begun)
      ensures dataNum < totalNum ==> Waiting()
      ensures old(readidx) <= readidx <= writeidx
    {
      hide Accounted, Mid, Blocks, Aligned;
      var blocksize := mode.HeadLen();
      ghost var body := payload[..dataNum];
      MidValid(mode, begun, raw, head, body, cs);
      var numbytes: int := writeidx - readidx;
      var remainpack := totalNum - dataNum;
      if numbytes > remainpack {
        numbytes := remainpack;
      }
      var numdecrypt: int := 0;
      if mode.Encrypted? {
        var skip := mode.MacLen();
        if dataNum + numbytes > totalNum - skip {
          numdecrypt := totalNum - skip - dataNum;
        } else {
          numdecrypt := numbytes;
          AlignedFloor(numbytes, blocksize);
          var frac := numdecrypt % blocksize;
          if frac != 0 {
            numdecrypt := numdecrypt - frac;
            numbytes := 0;
          }
        }
      }
      if numdecrypt > 0 {
        MidAligned(mode, begun, raw, head, body, cs);
        Take(true, numdecrypt);
        numbytes := numbytes - numdecrypt;
      }
      if numbytes > 0 {
        Take(false, numbytes);
      }
      MidBlockLeft(mode, begun, raw, head, payload[..dataNum], cs);
    }

    /** The MAC computed over the packet is compared with the one received (lines 142-164). */
    method CompareMac() returns (mac: MacState)
      requires InPacket() && dataNum == totalNum
      ensures mac == MacVerdict(mode, seqno, head, payload[..])
    {
      MidValid(mode, begun, raw, head, payload[..dataNum], cs);
      hide Mid, U32Of;
      mac := Confirmed;
      var len := packetLength - 1;
      ghost var all := payload[..];
      assert payload[len..len + mode.MacLen()] == all[len..len + mode.MacLen()] == all[len..];
      assert payload[..len] == all[..len];
      if mode.Encrypted? {
        var macbuf := mode.keys.Mac(seqno, init + payload[..len]);
        if macbuf != payload[len..len + mode.keys.macLen] {
          mac := Invalid;
        }
      }
    }

    /** What the parser makes of a packet that is complete. */
    lemma PacketVerdict()
      requires Collecting() && dataNum == totalNum
      ensures mode.Valid() && |head| == 5 && 0 <= packetLength - 1 - paddingLength <= payload.Length
      ensures payload.Length > 0
      ensures packetLength == U32Of(head)
      ensures ParseOne(mode, begun, raw) ==
              Got(Packet(payload[..packetLength - 1 - paddingLength], MacVerdict(mode, seqno, head, payload[..])),
                  End(cs, Next(seqno)), |raw|)
    {
      hide ParseOne, MacVerdict;
      ghost var body := payload[..];
      assert payload[..dataNum] == body;
      MidVerdict(mode, begun, raw, head, body, cs);
      assert payload[..packetLength - 1 - paddingLength] == body[..packetLength - 1 - paddingLength];
    }

    /** What has been found out about the packet is kept; its number is used up. */
    method Settle(payloadLen: nat)
      requires InPacket() && dataNum == totalNum && payloadLen <= payload.Length && payload.Length > 0
      requires ParseOne(mode, begun, raw) == Got(Packet(payload[..payloadLen], fullpacketMac), End(cs, Next(seqno)), |raw|)
      modifies this`fullpacketState, this`fullpacketPayloadLen, this`fullpacketType, this`seqno
      ensures Checked()
    {
      hide ParseOne, InPacket, Next;
      fullpacketPayloadLen := payloadLen;
      seqno := Next(seqno);
      fullpacketType := payload[0];
      fullpacketState := Created;
    }

    /** A complete packet: its MAC is compared, its number used up, its padding cut off
        (lines 141-226, without compression). */
    method CheckPacket()
      requires Collecting() && dataNum == totalNum
      modifies this`fullpacketState, this`fullpacketMac, this`fullpacketPayloadLen, this`fullpacketType, this`seqno
      ensures Checked()
    {
      PacketVerdict();
      hide ParseOne, MacVerdict, U32Of, InPacket, Next;
      fullpacketMac := CompareMac();
      Settle(packetLength - 1 - paddingLength);
    }

    /** The check is made only once, however often `fullpacket` is entered. */
    method CheckOnce()
      requires (Collecting() && dataNum == totalNum) || Checked()
      requires WindowOk() && DeliveredOk()
      modifies this`fullpacketState, this`fullpacketMac, this`fullpacketPayloadLen, this`fullpacketType, this`seqno
      ensures Checked() && WindowOk() && DeliveredOk()
    {
      hide Accounted, Agrees, InPacket, ParseOne;
      if fullpacketState == Idle {
        CheckPacket();
      }
    }

    /** The packet is linked into the brigade. */
    method Deliver()
      requires Checked() && DeliveredOk() && WindowOk()
      requires fullpacketMac == Confirmed || tolerateMac
      modifies this`delivered, this`taken, this`raw, this`begun, this`fullpacketState
      ensures |taken| > |old(taken)|
      ensures DeliveredOk() && WindowOk() && raw == [] && begun == End(cs, seqno) && fullpacketState == Idle
      ensures delivered == old(delivered) + [Packet(payload[..fullpacketPayloadLen], fullpacketMac)]
    {
      hide ParseOne, Mid, Agrees, Accounted, U32Of;
      var packet := Packet(payload[..fullpacketPayloadLen], fullpacketMac);
      AgreesMore(mode, tolerateMac, origin, taken, delivered, begun, raw, packet, End(cs, seqno));
      AccountedWhole(sock.received, taken, raw, buf[..], readidx, writeidx);
      delivered := delivered + [packet];
      begun := End(cs, seqno);
      taken, raw := taken + raw, [];
      fullpacketState := Idle;
    }

    /** Exactly one packet was handed over if a packet type is returned, at most one on EAGAIN,
        none otherwise. */
    ghost predicate OneMore(r: ReadResult, before: seq<Packet>)
      reads this`delivered, this`fullpacketType
    {
      match r
      case Type(t) =>
        && |delivered| == |before| + 1 && before <= delivered && t == fullpacketType
        && (delivered[|before|].payload != [] ==> t == delivered[|before|].payload[0])
      case Eagain => before <= delivered && |delivered| <= |before| + 1
      case _ => delivered == before
    }

    /** The next packet is all there, and it is refused: by `libssh2_packet_add`, or for its MAC. */
    ghost predicate Refused(before: seq<AddOutcome>)
      reads this`taken, this`begun, sock
    {
      && mode.Valid() && |taken| <= |sock.received|
      && var next := ParseOne(mode, begun, sock.received[|taken|..]);
         next.Got? && ((before != [] && before[0] == Rejected) || (next.packet.mac == Invalid && !tolerateMac))
    }

    /** `libssh2_packet_add` puts the packet off. */
    static predicate Deferred(before: seq<AddOutcome>) {
      before != [] && (before[0] == Busy || before[0] == Rekeying)
    }

    lemma RefusedNow()
      requires WindowOk() && Checked()
      ensures mode.Valid() && |taken| <= |sock.received|
      ensures var next := ParseOne(mode, begun, sock.received[|taken|..]);
              next.Got? && next.packet.mac == fullpacketMac
    {
      hide ParseOne;
      MidValid(mode, begun, raw, head, payload[..dataNum], cs);
      assert sock.received[|taken|..] == raw + Window();
      ParseOneStable(mode, begun, raw, Window());
    }

    /** The checked packet goes into the brigade: at once, or before a key exchange that is begun. */
    method Accept(rekeying: bool) returns (r: ReadResult)
      requires WindowOk() && DeliveredOk() && Checked() && (fullpacketMac == Confirmed || tolerateMac)
      modifies this`fullpacketState, this`delivered, this`taken, this`raw, this`begun, this`totalNum
      ensures r == if rekeying then Eagain else Type(fullpacketType)
      ensures OneMore(r, old(delivered)) && delivered != old(delivered) && |taken| > |old(taken)|
      ensures WindowOk() && DeliveredOk()
      ensures raw == [] && End(cs, seqno) == begun && fullpacketState == Idle && (rekeying ==> totalNum == 0)
    {
      hide InPacket, ParseOne, Accounted, Agrees;
      assert payload[..fullpacketPayloadLen] != [] ==> payload[..fullpacketPayloadLen][0] == fullpacketType;
      Deliver();
      if rekeying {
        totalNum := 0;
        return Eagain;
      }
      return Type(fullpacketType);
    }

    /** The second half of `fullpacket`: the checked packet is offered to `libssh2_packet_add`. */
    method Offer() returns (r: ReadResult)
      requires WindowOk() && DeliveredOk() && Checked() && readPackState == Idle && !broken
      modifies this`fullpacketState, this`delivered, this`taken, this`raw, this`begun, this`adds, this`packAddIdle,
               this`totalNum, this`broken
      ensures broken <==> r == PacketFail
      ensures broken ==> taken == old(taken) && begun == old(begun) && Refused(old(adds))
      ensures r.Eagain? ==> Deferred(old(adds))
      ensures OneMore(r, old(delivered)) && r != PacketTooBig
      ensures |taken| >= |old(taken)| && (r.Type? ==> |taken| > |old(taken)|)
      ensures !broken ==> WindowOk() && DeliveredOk() && fullpacketType == old(fullpacketType)
      ensures r.Type? || (r.Eagain? && packAddIdle) ==>
                raw == [] && End(cs, seqno) == begun && fullpacketState == Idle && (r.Eagain? ==> totalNum == 0)
      ensures r.Eagain? && !packAddIdle ==> Checked()
      ensures r.Eagain? && packAddIdle ==> delivered != old(delivered)
      ensures adds == Later(old(adds)) && (old(adds) == [] ==> !r.Eagain?)
    {
      hide InPacket, ParseOne, Accounted, Agrees, DeliveredOk, Checked, WindowOk;
      var outcome := if adds == [] then Accepted else adds[0];
      adds := if adds == [] then [] else adds[1..];
      if fullpacketMac == Invalid && !tolerateMac {
        outcome := Rejected;
      }
      packAddIdle := outcome != Busy;
      if outcome == Accepted || outcome == Rekeying {
        r := Accept(outcome == Rekeying);
        return;
      }
      if outcome == Busy {
        return Eagain;
      }
      RefusedNow();
      broken := true;
      return PacketFail;
    }

    /** `fullpacket`, then what `libssh2_packet_read` does with its answer (lines 564-586). */
    method FullPacket() returns (r: ReadResult)
      requires WindowOk() && DeliveredOk() && readPackState == Idle && !broken && !sock.lost
      requires (Collecting() && dataNum == totalNum) || Checked()
      modifies this`fullpacketState, this`fullpacketMac, this`fullpacketPayloadLen, this`fullpacketType, this`seqno,
               this`delivered, this`taken, this`raw, this`begun, this`adds, this`packAddIdle, this`totalNum,
               this`readPackState, this`broken
      ensures Valid() && (broken <==> r == PacketFail)
      ensures broken ==> taken == old(taken) && begun == old(begun) && Refused(old(adds))
      ensures r.Eagain? ==> Deferred(old(adds))
      ensures r.Eagain? && delivered == old(delivered) ==> readPackState == Jump1
      ensures adds == Later(old(adds)) && (old(adds) == [] ==> !r.Eagain?)
      ensures OneMore(r, old(delivered)) && r != PacketTooBig
      ensures |taken| >= |old(taken)| && (r.Type? ==> |taken| > |old(taken)|)
    {
      hide Accounted, Agrees, InPacket, Checked, Collecting, Refused, Deferred;
      CheckOnce();
      r := Offer();
      if r == Eagain {
        if !packAddIdle {
          readPackState := Jump1;
        }
        return;
      }
      totalNum := 0;
    }

    /** What the network has brought and will bring. */
    ghost function Stream(): seq<byte>
      reads sock
    {
      sock.received + Coming(sock.script)
    }

    /** Received bytes not yet in a delivered packet. */
    ghost function Undelivered(): seq<byte>
      reads this`raw, this`readidx, this`writeidx, buf
      requires readidx <= writeidx <= buf.Length
    {
      raw + Window()
    }

    /** Nothing deliverable has been received. */
    ghost predicate Starved()
      reads this`raw, this`readidx, this`writeidx, this`begun, buf
    {
      readidx <= writeidx <= buf.Length && mode.Valid() && ParseOne(mode, begun, Undelivered()) == Incomplete
    }

    lemma BoundaryStarved()
      requires WindowOk() && AtBoundary() && mode.Valid() && writeidx - readidx < mode.HeadLen()
      ensures Starved()
    {
      assert raw + Window() == Window();
    }

    lemma BoundaryWindow()
      requires WindowOk() && AtBoundary()
      ensures |taken| <= |sock.received| && sock.received[|taken|..] == Window()
    {
    }

    lemma WaitingStarved()
      requires WindowOk() && Waiting()
      ensures Starved()
    {
      MidIncomplete(mode, begun, raw, head, payload[..dataNum], cs, Window());
    }

    /** A well-formed stream never shows a malformed head. */
    lemma BoundaryWellFormed()
      requires WindowOk() && DeliveredOk() && AtBoundary() && StreamOk(mode, origin, Stream())
      ensures ParseOne(mode, begun, Window()) != Malformed
    {
      assert taken + raw == taken;
      assert taken + Window() + Coming(sock.script) == taken + (Window() + Coming(sock.script));
      StreamOkTail(mode, origin, taken, Window() + Coming(sock.script));
      if ParseOne(mode, begun, Window()) == Malformed {
        ParseOneStable(mode, begun, Window(), Coming(sock.script));
      }
    }

    /** One turn of the loop of `libssh2_packet_read`, up to the point where a packet is complete. */
    method CollectMore() returns (over: bool, r: ReadResult)
      requires WindowOk() && DeliveredOk() && (AtBoundary() || Waiting())
      requires StreamOk(mode, origin, Stream()) && !sock.lost
      modifies this`readidx, this`writeidx, this`init, this`packetLength, this`paddingLength, this`totalNum,
               this`payload, this`wptr, this`dataNum, this`cs, this`raw, this`head, buf, payload, sock
      ensures payload == old(payload) || fresh(payload)
      ensures Stream() == old(Stream())
      ensures !over || r.Type? || r.Eagain? ==> WindowOk() && DeliveredOk()
      ensures !over ==> Waiting() && (sock.Weight() < old(sock.Weight()) || writeidx - readidx < old(writeidx - readidx))
      ensures over ==> match r
                       case Type(_) => Collecting() && dataNum == totalNum
                       case Eagain => (AtBoundary() || Waiting()) && Starved()
                       case PacketTooBig =>
                         |taken| <= |sock.received| && ParseOne(mode, begun, sock.received[|taken|..]) == TooBig
                       case PacketFail => true
      ensures sock.lost <==> over && r.PacketFail?
      ensures sock.Owes(old(sock.Due())) && (sock.lost ==> AllDelivered())
      ensures old(Lasting(sock.script)) ==> Lasting(sock.script) && !sock.lost
      ensures over && r.Eagain? ==> sock.Weight() < old(sock.Weight()) || sock.script == []
      ensures sock.Weight() <= old(sock.Weight())
    {
      hide ParseOne, ParseAll, Mid, Accounted, Agrees, Lasting, U32Of, BeforeLoss;
      over, r := true, Eagain;
      if writeidx - readidx < mode.HeadLen() {
        if totalNum == 0 { BoundaryStarved(); } else { WaitingStarved(); }
        StarvedDelivered();
        var received := Refill();
        if received == Again {
          if totalNum == 0 { BoundaryStarved(); } else { WaitingStarved(); }
          return;
        }
        if received == Lost {
          return true, PacketFail;
        }
      }
      if totalNum == 0 {
        if writeidx - readidx < mode.HeadLen() {
          BoundaryStarved();
          return;
        }
        BoundaryWellFormed();
        BoundaryWindow();
        var ok := TakeHead();
        if !ok {
          return true, PacketTooBig;
        }
      }
      Absorb();
      return dataNum == totalNum, Type(0);
    }

    /** `libssh2_packet_read` up to the point where a packet is complete. */
    method Collect() returns (r: ReadResult)
      requires WindowOk() && DeliveredOk() && (AtBoundary() || Waiting())
      requires StreamOk(mode, origin, Stream()) && !sock.lost
      modifies this`readidx, this`writeidx, this`init, this`packetLength, this`paddingLength, this`totalNum,
               this`payload, this`wptr, this`dataNum, this`cs, this`raw, this`head, buf, payload, sock
      ensures payload == old(payload) || fresh(payload)
      ensures Stream() == old(Stream())
      ensures r.PacketFail? || r.PacketTooBig? || (WindowOk() && DeliveredOk())
      ensures match r
              case Type(_) => Collecting() && dataNum == totalNum
              case Eagain => (AtBoundary() || Waiting()) && Starved()
              case PacketTooBig =>
                |taken| <= |sock.received| && ParseOne(mode, begun, sock.received[|taken|..]) == TooBig
              case PacketFail => true
      ensures (r.PacketFail? <==> sock.lost) && sock.Owes(old(sock.Due())) && (sock.lost ==> AllDelivered())
      ensures old(Lasting(sock.script)) ==> Lasting(sock.script) && !sock.lost
      ensures r.Eagain? ==> sock.Weight() < old(sock.Weight()) || sock.script == []
      ensures sock.Weight() <= old(sock.Weight())
    {
      hide ParseOne, ParseAll, Accounted, Agrees, Lasting, InPacket, DeliveredOk, Starved, Inbound.Weight, Inbound.Due;
      while true
        invariant WindowOk() && DeliveredOk() && (AtBoundary() || Waiting())
        invariant payload == old(payload) || fresh(payload)
        invariant Stream() == old(Stream()) && !sock.lost && sock.Due() == old(sock.Due())
        invariant (old(Lasting(sock.script)) ==> Lasting(sock.script))
        invariant sock.Weight() <= old(sock.Weight())
        decreases sock.Weight(), writeidx - readidx
      {
        var over;
        over, r := CollectMore();
        if over {
          return;
        }
      }
    }

    /** Every complete packet among the received bytes has been delivered, and nothing else. */
    ghost predicate AllDelivered()
      reads this`delivered, sock
    {
      mode.Valid() && ParseAll(mode, origin, sock.received).packets == delivered
    }

    lemma StarvedDelivered()
      requires WindowOk() && DeliveredOk() && Starved()
      ensures AllDelivered()
    {
      hide ParseOne;
      assert sock.received == taken + Undelivered();
      ParseAllConcat(mode, origin, taken, Undelivered());
      assert delivered + [] == delivered;
    }

    /** `libssh2_packet_read`. Whatever the network does and however often the call is made again
        after EAGAIN, what has been delivered is what the parser finds in the bytes received; when
        the call ends for want of bytes, nothing complete is held back. */
    method PacketRead() returns (r: ReadResult)
      requires Valid() && !broken && StreamOk(mode, origin, Stream())
      modifies this, buf, payload, sock
      ensures payload == old(payload) || fresh(payload)
      ensures Valid() && Stream() == old(Stream())
      ensures broken <==> r == PacketTooBig || r == PacketFail
      ensures OneMore(r, old(delivered))
      ensures |taken| >= |old(taken)| && (r.Type? ==> |taken| > |old(taken)|)
      ensures r.Eagain? && delivered == old(delivered) && readPackState == Idle ==> AllDelivered()
      ensures adds == old(adds) || adds == Later(old(adds))
      ensures old(adds) == [] && r.Eagain? ==> AllDelivered()
      ensures r.PacketTooBig? ==> |taken| <= |sock.received| && ParseOne(mode, begun, sock.received[|taken|..]) == TooBig
      ensures r.PacketFail? ==> sock.lost || Refused(old(adds))
      ensures sock.lost ==> r.PacketFail? && AllDelivered()
      ensures sock.Owes(old(sock.Due()))
      ensures broken ==> taken == old(taken) && begun == old(begun)
      ensures r.Eagain? ==> (AllDelivered() && (sock.Weight() < old(sock.Weight()) || sock.script == [])) || Deferred(old(adds))
      ensures old(Lasting(sock.script)) ==> Lasting(sock.script) && !sock.lost
      ensures sock.Weight() <= old(sock.Weight())
    {
      hide ParseOne, ParseAll, Accounted, Agrees, InPacket, Refused, Deferred, Lasting;
      if readPackState == Jump1 {
        readPackState := Idle;
        r := FullPacket();
        return;
      }
      r := Collect();
      match r
      case Type(_) =>
        r := FullPacket();
      case Eagain =>
        StarvedDelivered();
      case _ =>
        broken := true;
    }

    /** The loop of `libssh2_packet_require_ex` on a non-blocking socket (packet.c:1108-1139): read
        on until a packet of the wanted type is in. `last` is what `libssh2_packet_add` was still to
        answer before the last packet: EAGAIN, for any other reason than a packet of type 0, means that
        everything complete has been delivered or that the packet was put off, and failure that the
        connection is lost or the packet was refused. */
    method RequirePacket(packetType: byte) returns (r: ReadResult, ghost last: seq<AddOutcome>)
      requires Valid() && !broken && StreamOk(mode, origin, Stream())
      modifies this, buf, payload, sock
      ensures payload == old(payload) || fresh(payload)
      ensures Valid() && Stream() == old(Stream()) && old(delivered) <= delivered
      ensures broken <==> r == PacketTooBig || r == PacketFail
      ensures r.Type? ==> r.t == packetType && |delivered| > |old(delivered)| && LastIs(packetType)
      ensures Leaves(old(adds), last)
      ensures r.Eagain? ==> AllDelivered() || fullpacketType == 0 || Deferred(last)
      ensures r.PacketFail? ==> sock.lost || Refused(last)
      ensures sock.lost ==> r.PacketFail? && AllDelivered()
      ensures sock.Owes(old(sock.Due()))
    {
      hide ParseOne, ParseAll, Accounted, Agrees, Mid, Coming, Inbound.Due, Refused, Deferred, Lasting, WindowOk;
      hide DeliveredOk, Checked, Waiting;
      while true
        invariant payload == old(payload) || fresh(payload)
        invariant Valid() && !broken && Stream() == old(Stream()) && old(delivered) <= delivered
        invariant !sock.lost && sock.Due() == old(sock.Due())
        invariant Leaves(old(adds), adds)
        decreases |Stream()| - |taken|
      {
        TakenReceived();
        last := adds;
        r := PacketRead();
        match r
        case Type(t) =>
          if t == 0 {
            return Eagain, last;
          }
          if t == packetType {
            return;
          }
        case _ =>
          return;
      }
    }

    /** The packet delivered last is of this type. */
    ghost predicate LastIs(packetType: byte)
      reads this`delivered
    {
      delivered != [] && var last := delivered[|delivered| - 1].payload; last != [] ==> last[0] == packetType
    }

    lemma TakenFirst()
      requires Valid() && !broken
      ensures taken <= Stream() && ParseAll(mode, origin, taken) == Parsed(delivered, begun, [])
    {
    }

    lemma TakenSome()
      requires Valid() && !broken
      ensures mode.Valid() && taken <= sock.received && ParseAll(mode, origin, taken) == Parsed(delivered, begun, [])
    {
      hide ParseAll;
    }

    lemma TakenReceived()
      requires Valid() && !broken
      ensures |taken| <= |Stream()|
    {
    }
  }

  /** The first packet of a stream that parses to its end, seen when only a part of it is in. */
  lemma FirstOfGood(m: Mode, e: End, a: seq<byte>, b: seq<byte>)
    requires m.Valid() && ParseAll(m, e, a + b).rest == []
    ensures var next := ParseOne(m, e, a);
            && next != TooBig
            && (next.Got? ==> var ps := ParseAll(m, e, a + b).packets; ps != [] && ps[0] == next.packet)
  {
    hide ParseOne;
    var next := ParseOne(m, e, a);
    if next != Incomplete {
      ParseOneStable(m, e, a, b);
      EmptyIncomplete(m, e);
    }
  }

  /** In a sender's stream, what comes next after some of its packets is neither too big nor tampered
      with. */
  lemma NextIsConfirmed(m: Mode, e: End, tx: Mode, random: bool, msgs: seq<Message>, taken: seq<byte>, more: seq<byte>,
                        left: seq<byte>, delivered: seq<Packet>, begun: End)
    requires Paired(tx, m) && AllSendable(tx, random, msgs)
    requires taken + (more + left) == Wire(tx, random, e, msgs).0
    requires ParseAll(m, e, taken) == Parsed(delivered, begun, [])
    ensures var next := ParseOne(m, begun, more);
            next != TooBig && (next.Got? ==> next.packet.mac == Confirmed)
  {
    hide ParseOne, ParseAll, AllSendable, Wire;
    WireParses(tx, m, random, e, msgs);
    ParseAllConcat(m, e, taken, more + left);
    FirstOfGood(m, begun, more, left);
    var rest := ParseAll(m, begun, more + left);
    assert rest.packets == Intended(msgs)[|delivered|..];
  }

  /** Whatever prefix of a sender's stream has arrived, and however it was cut, the packets handed
      over so far are the first payloads sent, each confirmed. */
  lemma OnlyWhatWasSent(reader: Reader, tx: Mode, random: bool, msgs: seq<Message>)
    requires reader.Valid() && !reader.broken && Paired(tx, reader.mode)
    requires AllSendable(tx, random, msgs)
    requires reader.sock.received <= Wire(tx, random, reader.origin, msgs).0
    ensures reader.delivered <= Intended(msgs)
  {
    hide ParseAll, AllSendable, Wire, Reader.Valid, Mode.Valid;
    reader.TakenSome();
    PrefixOfSent(reader.mode, reader.origin, tx, random, msgs, reader.taken, reader.delivered, reader.begun);
  }

  lemma PrefixOfSent(m: Mode, e: End, tx: Mode, random: bool, msgs: seq<Message>, taken: seq<byte>,
                     delivered: seq<Packet>, begun: End)
    requires Paired(tx, m) && AllSendable(tx, random, msgs) && taken <= Wire(tx, random, e, msgs).0
    requires ParseAll(m, e, taken) == Parsed(delivered, begun, [])
    ensures delivered <= Intended(msgs)
    ensures var left := Wire(tx, random, e, msgs).0[|taken|..];
            ParseAll(m, begun, left) == Parsed(Intended(msgs)[|delivered|..], Wire(tx, random, e, msgs).1, [])
  {
    hide ParseAll, AllSendable, Wire;
    var wire := Wire(tx, random, e, msgs).0;
    WireParses(tx, m, random, e, msgs);
    assert wire == taken + wire[|taken|..];
    ParseAllConcat(m, e, taken, wire[|taken|..]);
    var rest := ParseAll(m, begun, wire[|taken|..]);
    assert (delivered + rest.packets)[|delivered|..] == rest.packets;
  }

  /** Once the whole stream is in and the reader asks for more, all payloads have been handed over
      and both ends agree on cipher context and sequence number. */
  lemma EverythingArrives(reader: Reader, tx: Mode, random: bool, msgs: seq<Message>)
    requires reader.Valid() && !reader.broken && Paired(tx, reader.mode)
    requires AllSendable(tx, random, msgs)
    requires reader.sock.received == Wire(tx, random, reader.origin, msgs).0 && reader.AllDelivered()
    ensures reader.delivered == Intended(msgs) && reader.begun == Wire(tx, random, reader.origin, msgs).1
  {
    hide ParseAll, AllSendable, Wire, Reader.Valid, Mode.Valid;
    reader.TakenSome();
    WireParses(tx, reader.mode, random, reader.origin, msgs);
    PrefixOfSent(reader.mode, reader.origin, tx, random, msgs, reader.taken, reader.delivered, reader.begun);
    NoPackets(reader.mode, reader.begun, Wire(tx, random, reader.origin, msgs).0[|reader.taken|..]);
  }

  lemma NoPackets(m: Mode, e: End, s: seq<byte>)
    requires m.Valid() && ParseAll(m, e, s).packets == []
    ensures ParseAll(m, e, s).end == e
  {
    hide ParseOne;
  }
}
