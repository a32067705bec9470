/** `libssh2_sftp_read`: a file read in pieces, which may be interrupted at every step. */
module SftpRead {
  import opened Bytes
  import opened Brigade
  import opened Scripts
  import SftpFrame

  const FXP_READ: byte := 5
  const FXP_STATUS: byte := 101
  const FXP_DATA: byte := 103
  const FX_EOF: u32 := 1
  const FX_FAILURE: u32 := 4
  const PACKET_MAXLEN := 40000

  /** What comes of writing a request: not now, an error, or the whole of it is out. */
  datatype Turn = Wait | Broken | Go

  datatype Code = Ok(n: nat) | Eagain | Error

  /** The next turn; a script that has run out has nothing yet. */
  function Next(turns: seq<Turn>): Turn {
    if turns == [] then Wait else turns[0]
  }

  /** How often the connection goes on. */
  function Goes(turns: seq<Turn>): nat {
    if turns == [] then 0 else
    Goes(turns[..|turns| - 1]) + if turns[|turns| - 1].Go? then 1 else 0
  }

  /** The connection went on, `n` times at most, and never broke. */
  ghost predicate Went(before: seq<Turn>, after: seq<Turn>, n: int) {
    Leaves(before, after) && Broken !in Used(before, after) && Goes(Used(before, after)) <= n
  }

  predicate IsWait(t: Turn) {
    t == Wait
  }

  predicate IsBroken(t: Turn) {
    t == Broken
  }

  /** The last turn used was a wait, or there is none left. */
  ghost predicate Waits(before: seq<Turn>, after: seq<Turn>) {
    Leaves(before, after) && (after == [] || Ends(before, after, IsWait))
  }

  /** The last turn used was that the connection breaks. */
  ghost predicate Breaks(before: seq<Turn>, after: seq<Turn>) {
    Ends(before, after, IsBroken)
  }

  lemma NoneUsed(turns: seq<Turn>)
    ensures Went(turns, turns, 0) && Leaves(turns, turns)
  {
  }

  lemma NextUsed(first: seq<Turn>, before: seq<Turn>, after: seq<Turn>, n: int)
    requires Went(first, before, n) && after == Later(before)
    ensures match Next(before)
            case Go => Went(first, after, n + 1)
            case Wait => Went(first, after, n) && Waits(first, after)
            case Broken => Breaks(first, after)
    ensures Leaves(first, after)
  {
    if before != [] {
      EndsLater(first, before, IsWait);
      EndsLater(first, before, IsBroken);
    }
  }

  lemma AtMost(before: seq<Turn>, after: seq<Turn>, n: int, m: int)
    requires Went(before, after, n) && n <= m
    ensures Went(before, after, m)
  {
  }

  lemma GoesConcat(a: seq<Turn>, b: seq<Turn>)
    ensures Goes(a + b) == Goes(a) + Goes(b)
  {
    if b == [] {
      assert a + b == a;
    } else {
      GoesConcat(a, b[..|b| - 1]);
      assert (a + b)[..|a + b| - 1] == a + b[..|b| - 1];
    }
  }

  /** What the turn makes of a call. */
  function Outcome(t: Turn): Code {
    match t
    case Wait => Eagain
    case Broken => Error
    case Go => Ok(0)
  }

  /** The channel brought bytes `n` times at most, and never broke. */
  ghost predicate Hears(before: seq<SftpFrame.Answer>, after: seq<SftpFrame.Answer>, n: int) {
    SftpFrame.Unbroken(before, after) && SftpFrame.Bringing(before, after, n)
  }

  /** The answer used last was that there is nothing now, or there are no more. */
  ghost predicate NotYet(before: seq<SftpFrame.Answer>, after: seq<SftpFrame.Answer>) {
    Leaves(before, after) && (after == [] || Ends(before, after, SftpFrame.IsNotYet))
  }

  /** The answer used last was that the channel is broken, or brought a part of a length. */
  ghost predicate Fails(before: seq<SftpFrame.Answer>, after: seq<SftpFrame.Answer>) {
    Ends(before, after, SftpFrame.IsBroken) || Ends(before, after, SftpFrame.IsShort)
  }

  lemma NoneHeard(answers: seq<SftpFrame.Answer>)
    ensures Hears(answers, answers, 0) && Leaves(answers, answers)
  {
  }

  lemma HearsThen(a: seq<SftpFrame.Answer>, b: seq<SftpFrame.Answer>, c: seq<SftpFrame.Answer>, n: int, m: int)
    requires Hears(a, b, n) && Leaves(b, c)
    ensures Leaves(a, c) && (Hears(b, c, m) ==> Hears(a, c, n + m))
    ensures (NotYet(b, c) ==> NotYet(a, c)) && (Fails(b, c) ==> Fails(a, c))
  {
    SftpFrame.WereUsed(a, b, c, []);
    LeavesOn(a, b, c);
  }

  lemma HearsMore(a: seq<SftpFrame.Answer>, b: seq<SftpFrame.Answer>, n: int, m: int)
    requires Hears(a, b, n) && n <= m
    ensures Hears(a, b, m)
  {
  }

  datatype NbState = Idle | Allocated | Created | Sent

  /** The READ request (sftp.c:1024-1040). */
  function Request(id: u32, handle: seq<byte>, offset: u64, len: u32): (r: seq<byte>)
    requires |handle| + 25 < TWO32
    ensures |r| == |handle| + 25
  {
    U32Bytes(|handle| + 21) + ([FXP_READ] + (U32Bytes(id) + (U32Bytes(|handle|) + (handle + (U64Bytes(offset) + U32Bytes(len))))))
  }

  datatype Asked = Asked(id: u32, handle: seq<byte>, offset: u64, len: u32)

  /** How a server reads it. */
  function Parse(r: seq<byte>): Option<Asked> {
    if |r| < 13 || U32Of(r) != |r| - 4 || r[4] != FXP_READ then None else
    var n := U32Of(r[9..]);
    if |r| != n + 25 then None
    else Some(Asked(U32Of(r[5..]), r[13..13 + n], U64Of(r[13 + n..]), U32Of(r[21 + n..])))
  }

  /** The server understands what was asked. */
  lemma RequestUnderstood(id: u32, handle: seq<byte>, offset: u64, len: u32)
    requires |handle| + 25 < TWO32
    ensures Parse(Request(id, handle, offset, len)) == Some(Asked(id, handle, offset, len))
    ensures var r, n := Request(id, handle, offset, len), |handle|;
            && U32Of(r) == |r| - 4 == n + 21 && r[4] == 5 && U32Of(r[5..]) == id && U32Of(r[9..]) == n
            && r[13..13 + n] == handle && U64Of(r[13 + n..]) == offset && U32Of(r[21 + n..]) == len
  {
    hide U32Bytes, U64Bytes, U32Of, U64Of;
    var n := |handle|;
    var r := Request(id, handle, offset, len);
    var a := U64Bytes(offset) + U32Bytes(len);
    var b := U32Bytes(n) + (handle + a);
    var c := U32Bytes(id) + b;
    U32RoundTrip(n + 21, [FXP_READ] + c);
    assert r[5..] == c;
    U32RoundTrip(id, b);
    assert r[9..] == b;
    U32RoundTrip(n, handle + a);
    assert r[13..13 + n] == handle;
    assert r[13 + n..] == a;
    U64RoundTrip(offset, U32Bytes(len));
    assert r[21 + n..] == U32Bytes(len) + [];
    U32RoundTrip(len, []);
  }

  function Status(id: u32, code: u32): seq<byte> {
    [FXP_STATUS] + U32Bytes(id) + U32Bytes(code)
  }

  function Data(id: u32, s: seq<byte>): seq<byte>
    requires |s| < TWO32
  {
    [FXP_DATA] + U32Bytes(id) + U32Bytes(|s|) + s
  }

  /** How many bytes come back: at least one, no more than asked for or left. */
  function Share(k: nat, len: nat, left: nat): (n: nat)
    requires len > 0 && left > 0
    ensures 0 < n <= len && n <= left
  {
    var m := if len < left then len else left;
    if k == 0 then 1 else if k < m then k else m
  }

  /** An honest server's reply: bytes of the file from the offset on, or end of file. */
  function Reply(file: seq<byte>, handle: seq<byte>, request: seq<byte>, k: nat): seq<byte> {
    match Parse(request)
    case None => Status(0, FX_FAILURE)
    case Some(a) =>
      if a.handle != handle || a.len == 0 then Status(a.id, FX_FAILURE)
      else if a.offset >= |file| then Status(a.id, FX_EOF)
      else Data(a.id, file[a.offset..a.offset + Share(k, a.len, |file| - a.offset)])
  }

  /** What the client takes out of a reply (sftp.c:1086-1115), and what it knows it by. */
  lemma ReplyFields(id: u32, s: seq<byte>)
    requires |s| < TWO32
    ensures var d := Data(id, s);
            d[0] == 103 && |d| == 9 + |s| && U32Of(d[1..]) == id && U32Of(d[5..]) == |s| && d[9..] == s
    ensures var d := Status(id, FX_EOF);
            d[0] == 101 && |d| == 9 && U32Of(d[1..]) == id && U32Of(d[5..]) == 1
  {
    hide U32Of;
    assert Data(id, s)[5..] == U32Bytes(|s|) + s;
    U32RoundTrip(|s|, s);
    assert Data(id, s)[1..] == U32Bytes(id) + (U32Bytes(|s|) + s);
    U32RoundTrip(id, U32Bytes(|s|) + s);
    assert Status(id, FX_EOF)[5..] == U32Bytes(FX_EOF) + [];
    U32RoundTrip(FX_EOF, []);
    assert Status(id, FX_EOF)[1..] == U32Bytes(id) + U32Bytes(FX_EOF);
    U32RoundTrip(id, U32Bytes(FX_EOF));
  }

  /** How much is asked for at a time. */
  function Piece(left: nat): u32 {
    if left > PACKET_MAXLEN - 13 then PACKET_MAXLEN - 13 else left
  }

  /** A packet as it travels. */
  function Frame(p: seq<byte>): seq<byte>
    requires |p| < TWO32
  {
    U32Bytes(|p|) + p
  }

  /** The packet is a reply of this type to the request. */
  predicate IsReply(p: seq<byte>, packetType: byte, id: u32) {
    |p| >= 5 && p[0] == packetType && U32Of(p[1..]) == id
  }

  class Sftp {
    const handle: seq<byte>
    const file: seq<byte>
    /** The channel, read packet by packet. */
    const framer: SftpFrame.Framer
    var offset: u64
    var requestId: u32
    var readState: NbState
    var readPacket: seq<byte>
    var readRequestId: u32
    var readTotalRead: nat
    var writes: seq<Turn>
    /** How many bytes the server's replies carry, if they can. */
    var shares: seq<nat>
    /** The reply that is on its way. */
    ghost var reply: seq<byte>

    constructor (handle: seq<byte>, file: seq<byte>, offset: u64, writes: seq<Turn>, shares: seq<nat>,
                 answers: seq<SftpFrame.Answer>)
      requires |handle| + 25 < TWO32 && |file| < TWO32 * 0x8000_0000
      ensures Sane() && readState == Idle && Still() && fresh(framer)
      ensures this.offset == offset && this.file == file && this.writes == writes && this.shares == shares
      ensures framer.answers == answers
    {
      this.handle, this.file, this.offset, this.writes, this.shares := handle, file, offset, writes, shares;
      requestId, readState, readPacket, readRequestId, readTotalRead, reply := 0, Idle, [], 0, 0, [];
      framer := new SftpFrame.Framer([], answers);
    }

    predicate Sane() {
      |handle| + 25 < TWO32 && |file| < TWO32 * 0x8000_0000
    }

    /** So far `total` bytes of the file from `base` on are in the buffer. */
    ghost predicate Filled(b: seq<byte>, base: nat, total: nat)
      reads this`offset
    {
      && offset == base + total && total <= |b|
      && (total > 0 ==> base + total <= |file| && b[..total] == file[base..base + total])
    }

    /** Nothing is on its way, and nothing has been put by. */
    ghost predicate Still()
      reads framer
    {
      framer.Valid() && framer.packets == [] && framer.partial == None && framer.stream == []
    }

    /** The reply is on its way, or a part of it has come in. */
    ghost predicate Expecting()
      reads this`reply, framer
    {
      && framer.Valid() && framer.packets == [] && |reply| <= PACKET_MAXLEN && framer.Unframed() == Frame(reply)
      && (framer.partial.Some? ==> |framer.partial.value| < framer.partialLen)
    }

    /** The reply is an honest server's. */
    ghost predicate Honest()
      reads this`reply, this`readPacket
    {
      exists k :: reply == Reply(file, handle, readPacket, k)
    }

    /** The request for the next piece is ready, or with the server, whose reply is then on its way. */
    ghost predicate Asking(total: nat, maxlen: nat)
      reads this`offset, this`readState, this`readPacket, this`readRequestId, this`reply, framer
    {
      && Sane() && total < maxlen && (readState == Created || readState == Sent)
      && readPacket == Request(readRequestId, handle, offset, Piece(maxlen - total))
      && (if readState == Sent then Honest() && Expecting() else Still())
    }

    method Turned() returns (t: Turn)
      modifies this`writes
      ensures t == Next(old(writes)) && writes == Later(old(writes))
    {
      t := if writes == [] then Wait else writes[0];
      writes := if writes == [] then [] else writes[1..];
    }

    /** Lines 1010-1043. */
    method Ask(total: nat, maxlen: nat)
      requires Sane() && total < maxlen && (if readState == Allocated then Still() else Asking(total, maxlen))
      modifies this`requestId, this`readPacket, this`readRequestId, this`readState
      ensures Asking(total, maxlen) && readState == (if old(readState) == Sent then Sent else Created)
    {
      var bytesRequested := maxlen - total;
      if bytesRequested > PACKET_MAXLEN - 13 {
        bytesRequested := PACKET_MAXLEN - 13;
      }
      if readState == Allocated {
        readRequestId := requestId;
        requestId := (requestId + 1) % TWO32;
        readPacket := Request(readRequestId, handle, offset, bytesRequested);
        readState := Created;
      }
    }

    /** The server has got the request: its reply is on its way. */
    method Serve(total: nat, maxlen: nat)
      requires Asking(total, maxlen) && readState == Created && maxlen < TWO32
      modifies this`shares, this`reply, framer`stream
      ensures Honest() && Expecting() && framer.answers == old(framer.answers) && framer.partial == None
    {
      hide Reply, U32Bytes, Request;
      var k := if shares == [] then 0 else shares[0];
      shares := if shares == [] then [] else shares[1..];
      ReplyIs(total, maxlen, k);
      var packet := Reply(file, handle, readPacket, k);
      reply := packet;
      framer.stream := framer.stream + (U32Bytes(|packet|) + packet);
      assert [] + (U32Bytes(|packet|) + packet) == Frame(packet);
      assert [] + Frame(packet) == Frame(packet);
      assert reply == Reply(file, handle, readPacket, k);
    }

    /** Lines 1045-1067. */
    method Send(total: nat, maxlen: nat) returns (rc: Code)
      requires Asking(total, maxlen) && maxlen < TWO32
      modifies this`writes, this`shares, this`reply, this`readState, this`readTotalRead, framer`stream
      ensures framer.answers == old(framer.answers)
      ensures rc == (if old(readState) == Sent then Ok(0) else Outcome(Next(old(writes))))
      ensures writes == (if old(readState) == Sent then old(writes) else Later(old(writes)))
      ensures rc.Ok? ==> Asking(total, maxlen) && readState == Sent
      ensures rc.Ok? && old(readState) == Created ==> readTotalRead == total && framer.partial == None
      ensures old(readState) == Sent ==>
                readTotalRead == old(readTotalRead) && reply == old(reply) && framer.stream == old(framer.stream)
      ensures rc == Eagain ==> Asking(total, maxlen) && readState == Created && readTotalRead == total
      ensures rc == Error ==> readState == Idle
    {
      hide Reply, Request, Piece;
      if readState == Created {
        var turn := Turned();
        if turn == Wait {
          readTotalRead := total;
          return Eagain;
        } else if turn == Broken {
          readState := Idle;
          return Error;
        }
        Serve(total, maxlen);
        readTotalRead := total;
        readState := Sent;
      }
      return Ok(0);
    }

    /** `sftp_packet_ask` for a reply to the request. */
    method PacketAsk(packetType: byte, id: u32) returns (data: Option<seq<byte>>)
      modifies framer`packets
      ensures data == None ==> framer.packets == old(framer.packets)
      ensures data == None ==> forall p <- framer.packets :: !IsReply(p, packetType, id)
      ensures data.Some? ==> exists i :: 0 <= i < |old(framer.packets)| && Taken(old(framer.packets), packetType, id, i)
                                        && data.value == old(framer.packets)[i] && framer.packets == Without(old(framer.packets), i)
    {
      hide U32Of;
      var i := 0;
      while i < |framer.packets|
        invariant i <= |framer.packets| && framer.packets == old(framer.packets)
        invariant forall j | 0 <= j < i :: !IsReply(framer.packets[j], packetType, id)
      {
        var p := framer.packets[i];
        if |p| >= 5 && p[0] == packetType && U32Of(p[1..]) == id {
          framer.packets := Without(framer.packets, i);
          assert Taken(old(framer.packets), packetType, id, i);
          return Some(p);
        }
        i := i + 1;
      }
      return None;
    }

    /** The `i`-th of the packets is the first such reply. */
    static ghost predicate Taken(packets: seq<seq<byte>>, packetType: byte, id: u32, i: nat)
      requires i < |packets|
    {
      IsReply(packets[i], packetType, id) && forall j | 0 <= j < i :: !IsReply(packets[j], packetType, id)
    }

    /** What of the reply has come in. */
    ghost function Heard(): int
      reads this`readState, this`reply, framer`stream
    {
      if readState == Sent then 4 + |reply| - |framer.stream| else 0
    }

    lemma HeardSome()
      requires Expecting()
      ensures |framer.stream| > 0
      ensures (framer.partial == None ==> framer.stream == Frame(reply) && |framer.stream| == 4 + |reply|)
    {
      hide U32Of;
      if framer.partial.Some? {
        var n, rest := framer.partialLen, framer.partial.value + framer.stream;
        assert framer.Unframed() == U32Bytes(n) + rest;
        U32RoundTrip(n, rest);
        U32RoundTrip(|reply|, reply);
      }
    }

    /** All of the reply is framed: it is the packet. */
    lemma Framing(packets: seq<seq<byte>>, rest: seq<byte>)
      requires |reply| <= PACKET_MAXLEN && (forall p <- packets :: |p| < TWO32) && |packets| == 1
      requires SftpFrame.Framed(packets) + rest == Frame(reply)
      ensures packets == [reply] && rest == []
    {
      hide Frame, SftpFrame.Framed;
      OneFramed(packets);
      FrameFirst(packets[0], rest, reply);
    }

    static lemma OneFramed(packets: seq<seq<byte>>)
      requires |packets| == 1 && |packets[0]| < TWO32
      ensures SftpFrame.Framed(packets) == Frame(packets[0])
    {
      hide U32Bytes;
      assert packets == [packets[0]] && packets[..0] == [];
      assert [] + Frame(packets[0]) == Frame(packets[0]);
    }

    static lemma FrameFirst(p: seq<byte>, rest: seq<byte>, q: seq<byte>)
      requires |p| < TWO32 && |q| < TWO32 && Frame(p) + rest == Frame(q)
      ensures p == q && rest == []
    {
      hide U32Of, U32Bytes;
      Associative(U32Bytes(|p|), p, rest);
      U32RoundTrip(|p|, p + rest);
      U32RoundTrip(|q|, q);
      assert (U32Bytes(|p|) + (p + rest))[4..] == p + rest && Frame(q)[4..] == q;
    }

    /** Its length cannot be used just when it does not come in at once. */
    lemma ShortLength(answers: seq<SftpFrame.Answer>)
      requires |reply| <= PACKET_MAXLEN
      ensures SftpFrame.Unusable(answers, Frame(reply)) <==> answers != [] && SftpFrame.IsShort(answers[0])
      ensures SftpFrame.Unusable(answers, Frame(reply)) ==> Ends(answers, Later(answers), SftpFrame.IsShort)
    {
      hide U32Of;
      U32RoundTrip(|reply|, []);
      assert Frame(reply)[..4] == U32Bytes(|reply|) == U32Bytes(|reply|) + [];
    }

    /** A packet is framed off the channel. */
    method ReadFrame() returns (code: SftpFrame.Code)
      requires Expecting() && readState == Sent
      modifies framer
      ensures framer.Valid() && Leaves(old(framer.answers), framer.answers)
      ensures code == SftpFrame.Added ==> framer.packets == [reply] && framer.partial == None && framer.stream == []
      ensures code == SftpFrame.Eagain ==> Expecting() && NotYet(old(framer.answers), framer.answers)
      ensures code == SftpFrame.Error ==>
                && Fails(old(framer.answers), framer.answers)
                && (Ends(old(framer.answers), framer.answers, SftpFrame.IsBroken) || old(framer.partial) == None)
      ensures old(framer.partial) == None && old(framer.answers) != [] && SftpFrame.IsShort(old(framer.answers)[0]) ==>
                code == SftpFrame.Error
      ensures code != SftpFrame.Error ==> Hears(old(framer.answers), framer.answers, Heard() - old(Heard()))
    {
      hide U32Of, U32Bytes, SftpFrame.Framed, SftpFrame.Unusable, SftpFrame.Unbroken, SftpFrame.Bringing, Frame;
      HeardSome();
      ShortLength(framer.answers);
      NothingFramed();
      code := framer.PacketRead();
      if code == SftpFrame.Added {
        Framing(framer.packets, framer.stream);
      } else if code == SftpFrame.Eagain {
        HeardSome();
      }
    }

    lemma NothingFramed()
      ensures forall s: seq<byte> :: SftpFrame.Framed([]) + s == s && [] + s == s
    {
    }

    /** `sftp_packet_requirev` for the one reply expected (lines 1069-1084): it comes unchanged, however
        often this is interrupted, unless the channel breaks or the reply's length comes in pieces. */
    method Await(total: nat, maxlen: nat) returns (rc: Code, data: seq<byte>)
      requires Asking(total, maxlen) && readState == Sent && maxlen < TWO32
      modifies framer, this`readState
      ensures Leaves(old(framer.answers), framer.answers)
      ensures rc.Ok? ==> data == reply && Still() && readState == Sent
      ensures rc == Eagain ==> Asking(total, maxlen) && readState == Sent && NotYet(old(framer.answers), framer.answers)
      ensures rc == Error ==>
                && readState == Idle && Fails(old(framer.answers), framer.answers)
                && (Ends(old(framer.answers), framer.answers, SftpFrame.IsBroken) || old(framer.partial) == None)
      ensures old(framer.partial) == None && old(framer.answers) != [] && SftpFrame.IsShort(old(framer.answers)[0]) ==>
                rc == Error
      ensures rc == Eagain ==> Hears(old(framer.answers), framer.answers, Heard() - old(Heard()))
      ensures rc.Ok? ==> Hears(old(framer.answers), framer.answers, 4 + |reply| - old(Heard()))
    {
      hide U32Of, Request, Piece, Reply, Frame, Hears, NotYet, Fails, Leaves;
      Known(total, maxlen);
      NoneHeard(framer.answers);
      ghost var heard := Heard();
      while true
        invariant readState == Sent && Leaves(old(framer.answers), framer.answers)
        invariant framer.packets == [reply] ==> framer.Valid() && framer.partial == None && framer.stream == []
        invariant framer.packets == [reply] ==> Hears(old(framer.answers), framer.answers, 4 + |reply| - heard)
        invariant framer.packets == [reply] ==>
                    !(old(framer.partial) == None && old(framer.answers) != [] && SftpFrame.IsShort(old(framer.answers)[0]))
        invariant framer.packets != [reply] ==> Expecting() && framer.answers == old(framer.answers)
        invariant framer.packets != [reply] ==> framer.partial == old(framer.partial) && framer.stream == old(framer.stream)
        decreases framer.packets != [reply]
      {
        var found := PacketAsk(FXP_DATA, readRequestId);
        if found == None {
          found := PacketAsk(FXP_STATUS, readRequestId);
        }
        if found.Some? {
          return Ok(0), found.value;
        }
        var ret := ReadFrame();
        if ret == SftpFrame.Error {
          readState := Idle;
          return Error, [];
        } else if ret == SftpFrame.Eagain {
          return Eagain, [];
        }
      }
    }

    /** The reply is known by its number. */
    lemma Known(total: nat, maxlen: nat)
      requires Asking(total, maxlen) && readState == Sent && maxlen < TWO32
      ensures IsReply(reply, FXP_DATA, readRequestId) || IsReply(reply, FXP_STATUS, readRequestId)
    {
      hide U32Of, Request, Parse, Reply, Piece;
      var k :| reply == Reply(file, handle, readPacket, k);
      ReplyIs(total, maxlen, k);
    }

    /** What the reply to a request is. */
    lemma ReplyIs(total: nat, maxlen: nat, k: nat)
      requires Sane() && total < maxlen < TWO32
      requires readPacket == Request(readRequestId, handle, offset, Piece(maxlen - total))
      ensures var n := if offset >= |file| then 0 else Share(k, Piece(maxlen - total), |file| - offset);
              var data := Reply(file, handle, readPacket, k);
              && 9 <= |data| <= PACKET_MAXLEN - 4 && U32Of(data[1..]) == readRequestId && |data| <= 9 + n
              && (offset >= |file| ==> data[0] == FXP_STATUS && U32Of(data[5..]) == FX_EOF)
              && (offset < |file| ==>
                    data[0] == FXP_DATA && n <= |data| - 9 && U32Of(data[5..]) == n && data[9..9 + n] == file[offset..offset + n])
    {
      hide U32Of, Status, Data, Request, Parse;
      var len := Piece(maxlen - total);
      RequestUnderstood(readRequestId, handle, offset, len);
      if offset >= |file| {
        ReplyFields(readRequestId, []);
      } else {
        ReplyFields(readRequestId, file[offset..offset + Share(k, len, |file| - offset)]);
      }
    }

    /** The end of the file has been reached or passed. */
    predicate AtEnd()
      reads this`offset
    {
      offset >= |file|
    }

    /** Lines 1086-1122: the reply is copied, or ends the read. That its data fit into the buffer is left
        to the server. */
    method Take(buffer: array<byte>, total: nat, maxlen: nat, data: seq<byte>) returns (rc: Code, total': nat)
      requires total <= maxlen <= buffer.Length && |data| >= 9 && (data[0] == FXP_STATUS || data[0] == FXP_DATA)
      requires var n := U32Of(data[5..]);
               data[0] == FXP_DATA && n <= |data| - 9 ==> total + n <= maxlen && offset + n < TWO64
      modifies buffer, this`offset, this`readState
      ensures var n := U32Of(data[5..]);
              if data[0] == FXP_DATA && n <= |data| - 9 then
                && rc == Eagain && readState == Allocated && total' == total + n && offset == old(offset) + n
                && buffer[..total'] == old(buffer[..total]) + data[9..9 + n]
              else
                && rc == (if data[0] == FXP_STATUS && n == FX_EOF then Ok(total) else Error)
                && readState == Idle && total' == total && offset == old(offset) && buffer[..] == old(buffer[..])
    {
      hide U32Of;
      if data[0] == FXP_STATUS {
        var retcode := U32Of(data[5..]);
        readState := Idle;
        return if retcode == FX_EOF then Ok(total) else Error, total;
      }
      var bytesRead := U32Of(data[5..]);
      if bytesRead > |data| - 9 {
        readState := Idle;
        return Error, total;
      }
      ghost var was, part := buffer[..], data[9..9 + bytesRead];
      StoreBytes(buffer, total, data[9..9 + bytesRead]);
      SplicePart(was, total, part, bytesRead);
      assert was[..total] == buffer[..][..total];
      offset := offset + bytesRead;
      readState := Allocated;
      return Eagain, total + bytesRead;
    }

    /** What an honest server's reply does to the buffer. */
    method TakeReply(buffer: array<byte>, total: nat, maxlen: nat, data: seq<byte>, ghost k: nat, ghost base: nat)
      returns (rc: Code, total': nat)
      requires Sane() && total < maxlen <= buffer.Length && maxlen < TWO32
      requires readPacket == Request(readRequestId, handle, offset, Piece(maxlen - total))
      requires Filled(buffer[..], base, total) && data == Reply(file, handle, readPacket, k)
      modifies buffer, this`offset, this`readState
      ensures if old(AtEnd()) then rc == Ok(total) && readState == Idle && total' == total && offset == old(offset)
              else rc == Eagain && readState == Allocated && total < total' <= maxlen
      ensures Filled(buffer[..], base, total') && |data| <= 9 + total' - total
    {
      hide Reply, U32Of, Piece, Request;
      ReplyIs(total, maxlen, k);
      PieceFits(maxlen - total);
      ghost var at, done := offset, buffer[..total];
      rc, total' := Take(buffer, total, maxlen, data);
      assert total > 0 && at < |file| ==> file[base..at] + file[at..offset] == file[base..offset];
      assert buffer[..][..total'] == buffer[..total'] && buffer[..total] == buffer[..][..total];
    }

    lemma PieceFits(left: nat)
      ensures Piece(left) <= left
    {
    }

    /** The next reply's length will come in pieces. */
    ghost predicate Split()
      reads this`readState, this`writes, framer
    {
      && (if readState == Sent then framer.partial == None else Next(writes) == Go)
      && framer.answers != [] && SftpFrame.IsShort(framer.answers[0])
    }

    /** One when the server has got a request. */
    ghost function HasRequest(): nat
      reads this`readState
    {
      if readState == Sent then 1 else 0
    }

    /** How many requests have gone out for a read: each but the last one has brought a byte at least. */
    ghost function Requests(): nat
      reads this`readState, this`readTotalRead
    {
      (if readState == Idle then 0 else readTotalRead) + HasRequest()
    }

    /** What has come in, as 14 for every byte of the file: at least as many as a reply has in all for it. */
    ghost function Progress(): int
      reads this`readState, this`readTotalRead, this`reply, framer`stream
    {
      (if readState == Idle then 0 else 14 * readTotalRead) + Heard()
    }

    /** Lines 1069-1122: the reply is waited for and taken. */
    method TakeIn(buffer: array<byte>, total: nat, maxlen: nat, ghost base: nat) returns (rc: Code, total': nat, over: bool)
      requires Asking(total, maxlen) && readState == Sent && readTotalRead == total && maxlen < TWO32
      requires maxlen <= buffer.Length && Filled(buffer[..], base, total)
      modifies buffer, this`offset, this`readState, framer
      ensures Filled(buffer[..], base, total') && total <= total' <= maxlen
      ensures Leaves(old(framer.answers), framer.answers)
      ensures !over ==>
                && readState == Allocated && Still() && total < total'
                && Hears(old(framer.answers), framer.answers, 14 * (total' - total) - old(Heard()))
      ensures over && rc.Ok? ==>
                && readState == Idle && Still() && rc.n == total == total' && AtEnd()
                && Hears(old(framer.answers), framer.answers, 13 - old(Heard()))
      ensures over && rc == Eagain ==>
                && Asking(total, maxlen) && readState == Sent && total == total' && NotYet(old(framer.answers), framer.answers)
                && Hears(old(framer.answers), framer.answers, Heard() - old(Heard()))
      ensures over && rc == Error ==> readState == Idle && Fails(old(framer.answers), framer.answers)
      ensures old(Split()) ==> over && rc == Error
    {
      hide Reply, Request, Piece, Leaves, Hears, NotYet, Fails, Frame, SftpFrame.IsShort;
      ghost var answers, heard := framer.answers, Heard();
      ghost var k :| reply == Reply(file, handle, readPacket, k);
      total', over := total, true;
      var data;
      rc, data := Await(total, maxlen);
      if !rc.Ok? {
        return;
      }
      rc, total' := TakeReply(buffer, total, maxlen, data, k, base);
      over := rc != Eagain;
      HearsMore(answers, framer.answers, 4 + |data| - heard, if over then 13 - heard else 14 * (total' - total) - heard);
    }

    /** One turn of the loop: a piece asked for, answered and taken, or the read is over for now. */
    method ReadPiece(buffer: array<byte>, total: nat, maxlen: nat, ghost base: nat)
      returns (rc: Code, total': nat, over: bool)
      requires Sane() && total < maxlen <= buffer.Length && maxlen < TWO32 && Filled(buffer[..], base, total)
      requires if readState == Allocated then Still() else Asking(total, maxlen) && total == readTotalRead
      modifies buffer, this, framer
      ensures Filled(buffer[..], base, total') && total <= total' <= maxlen
      ensures Leaves(old(writes), writes) && Leaves(old(framer.answers), framer.answers)
      ensures !over ==>
                && readState == Allocated && Still() && total < total'
                && Went(old(writes), writes, 1 - old(HasRequest()))
                && Hears(old(framer.answers), framer.answers, 14 * (total' - total) - old(Heard()))
      ensures over && rc.Ok? ==>
                && readState == Idle && Still() && rc.n == total == total' && AtEnd()
                && Went(old(writes), writes, 1 - old(HasRequest()))
                && Hears(old(framer.answers), framer.answers, 13 - old(Heard()))
      ensures over && rc == Eagain ==>
                && Asking(total, maxlen) && readTotalRead == total == total'
                && (if readState == Sent then NotYet(old(framer.answers), framer.answers) else Waits(old(writes), writes))
                && Went(old(writes), writes, HasRequest() - old(HasRequest()))
                && Hears(old(framer.answers), framer.answers, Heard() - old(Heard()))
      ensures over && rc == Error ==>
                readState == Idle && (Breaks(old(writes), writes) || Fails(old(framer.answers), framer.answers))
      ensures old(Split()) ==> over && rc == Error
    {
      hide Reply, Request, Piece, Went, Waits, Breaks, Leaves, Hears, NotYet, Fails, Frame, Sftp.Expecting, Sftp.Honest;
      hide SftpFrame.IsShort, Later;
      ghost var sent, heard := HasRequest(), Heard();
      Ask(total, maxlen);
      ghost var before := writes;
      NoneUsed(writes);
      NoneHeard(framer.answers);
      total', over := total, true;
      rc := Send(total, maxlen);
      if sent == 0 {
        NextUsed(before, before, writes, 0);
      }
      if !rc.Ok? {
        return;
      }
      if sent == 0 {
        HeardSome();
      }
      rc, total', over := TakeIn(buffer, total, maxlen, base);
    }

    /** Such a turn, counted from the beginning of the call. */
    method ReadOn(buffer: array<byte>, total: nat, maxlen: nat, ghost base: nat, ghost turns: seq<Turn>,
                  ghost answers: seq<SftpFrame.Answer>, ghost requests: int, ghost progress: int)
      returns (rc: Code, total': nat, over: bool)
      requires Sane() && total < maxlen <= buffer.Length && maxlen < TWO32 && Filled(buffer[..], base, total)
      requires if readState == Allocated then Still() else Asking(total, maxlen) && total == readTotalRead
      requires Leaves(turns, writes) && Leaves(answers, framer.answers)
      requires Went(turns, writes, total + HasRequest() - requests)
      requires Hears(answers, framer.answers, 14 * total + Heard() - progress)
      modifies buffer, this, framer
      ensures Filled(buffer[..], base, total') && total <= total' <= maxlen
      ensures Leaves(turns, writes) && Leaves(answers, framer.answers)
      ensures over && rc.Ok? ==> readState == Idle && Still() && rc.n == total == total' && AtEnd()
      ensures over && rc == Eagain ==>
                && Asking(total, maxlen) && readTotalRead == total == total'
                && (if readState == Sent then NotYet(answers, framer.answers) else Waits(turns, writes))
      ensures over && rc == Error ==> readState == Idle && (Breaks(turns, writes) || Fails(answers, framer.answers))
      ensures !over ==> readState == Allocated && Still() && total < total'
      ensures !over || rc == Eagain ==>
                && Went(turns, writes, total' + HasRequest() - requests)
                && Hears(answers, framer.answers, 14 * total' + Heard() - progress)
      ensures old(Split()) ==> over && rc == Error
    {
      hide Reply, Request, Piece, Went, Waits, Breaks, Leaves, Hears, NotYet, Fails, Frame, Sftp.Split, Sftp.Filled;
      hide Sftp.Asking, Sftp.Still, Sftp.AtEnd;
      ghost var before, heard0, sent, heard := writes, framer.answers, HasRequest(), Heard();
      rc, total', over := ReadPiece(buffer, total, maxlen, base);
      GoesOn(turns, before, writes);
      HearsThen(answers, heard0, framer.answers, 14 * total + heard - progress,
                if over then Heard() - heard else 14 * (total' - total) - heard);
      if !over {
        WentOn(turns, before, writes, total + sent - requests, 1 - sent);
        AtMost(turns, writes, total + 1 - requests, total' - requests);
      } else if rc == Eagain {
        WentOn(turns, before, writes, total + sent - requests, HasRequest() - sent);
      }
    }

    lemma NothingRead(b: seq<byte>, base: nat)
      ensures offset == base ==> Filled(b, base, 0)
      ensures readState == Idle ==> Requests() == 0 && Progress() == 0
      ensures readState != Sent ==> Heard() == 0
    {
    }

    /** `libssh2_sftp_read`, called anew (`base` is then the handle's offset) or again on the same buffer.
        However it is interrupted, in the end the buffer holds the bytes of the file from `base` on, as
        many as there is room for or as there are, and the offset is behind them. It fails only when a
        request cannot be written, the channel breaks, or the length of a reply comes in pieces; it is
        interrupted only when it has to wait, and whatever else happens makes progress. */
    method Read(buffer: array<byte>, maxlen: nat, ghost base: nat) returns (rc: Code)
      requires Sane() && maxlen <= buffer.Length && maxlen < TWO32 && base + maxlen < TWO64
      requires if readState == Idle then offset == base && Still()
               else Asking(readTotalRead, maxlen) && Filled(buffer[..], base, readTotalRead)
      modifies buffer, this, framer
      ensures rc.Ok? ==> readState == Idle && Still() && rc.n <= maxlen && Filled(buffer[..], base, rc.n)
      ensures rc.Ok? ==> rc.n == maxlen || AtEnd()
      ensures rc == Eagain ==> Asking(readTotalRead, maxlen) && Filled(buffer[..], base, readTotalRead)
      ensures Leaves(old(writes), writes) && Leaves(old(framer.answers), framer.answers)
      ensures rc == Error ==>
                readState == Idle && (Breaks(old(writes), writes) || Fails(old(framer.answers), framer.answers))
      ensures rc == Eagain ==>
                && (if readState == Sent then NotYet(old(framer.answers), framer.answers) else Waits(old(writes), writes))
                && Went(old(writes), writes, Requests() - old(Requests()))
                && Hears(old(framer.answers), framer.answers, Progress() - old(Progress()))
      ensures old(Split()) && maxlen > 0 ==> rc == Error
    {
      hide Reply, Request, Piece, Went, Waits, Breaks, Leaves, Hears, NotYet, Fails, Frame, Sftp.Expecting, Sftp.Honest;
      hide SftpFrame.IsShort, Later, Sftp.Filled, Sftp.AtEnd;
      NothingRead(buffer[..], base);
      var total := 0;
      ghost var requests, progress := Requests(), Progress();
      NoneUsed(writes);
      NoneHeard(framer.answers);
      if readState == Idle {
        readState := Allocated;
      } else {
        total := readTotalRead;
      }
      while total < maxlen
        invariant total <= maxlen && Filled(buffer[..], base, total)
        invariant if readState == Allocated then Still() else Asking(total, maxlen) && total == readTotalRead
        invariant Leaves(old(writes), writes) && Leaves(old(framer.answers), framer.answers)
        invariant Went(old(writes), writes, total + HasRequest() - requests)
        invariant Hears(old(framer.answers), framer.answers, 14 * total + Heard() - progress)
        invariant old(Split()) ==> Split() && (maxlen > 0 ==> total < maxlen)
        decreases maxlen - total
      {
        var over;
        rc, total, over := ReadOn(buffer, total, maxlen, base, old(writes), old(framer.answers), requests, progress);
        if over {
          return;
        }
      }
      readPacket := [];
      readState := Idle;
      return Ok(total);
    }

    /** Of a reply there is less than 14 bytes for every byte of room. */
    lemma RoomLeft(total: nat, maxlen: nat)
      requires Asking(total, maxlen) && maxlen < TWO32
      ensures Heard() < 14 * (maxlen - total)
    {
      hide Request, Piece, Reply, U32Of, Frame;
      if readState == Sent {
        var k :| reply == Reply(file, handle, readPacket, k);
        ReplyIs(total, maxlen, k);
        PieceFits(maxlen - total);
        HeardSome();
      }
    }

    /** With that much to come, neither script has run out while the read is not completed. */
    lemma NotRunOut(turns: seq<Turn>, answers: seq<SftpFrame.Answer>, maxlen: nat)
      requires Asking(readTotalRead, maxlen) && maxlen < TWO32
      requires Goes(turns) >= maxlen && SftpFrame.Brings(answers) >= 14 * maxlen
      requires Went(turns, writes, Requests()) && Hears(answers, framer.answers, Progress())
      ensures if readState == Sent then framer.answers != [] else writes != []
    {
      hide Went, Hears, Sftp.Asking;
      RoomLeft(readTotalRead, maxlen);
      AskingMeans(readTotalRead, maxlen);
      if readState == Sent && framer.answers == [] {
        AllHeard(answers, Progress());
      } else if readState != Sent && writes == [] {
        AllUsed(turns, Requests());
      }
    }

    lemma AskingMeans(total: nat, maxlen: nat)
      requires Asking(total, maxlen)
      ensures total < maxlen && readState != Idle
    {
    }

    /** Called again whenever it was interrupted: if no request fails to be written and no read of the
        channel brings less than a length, if one request can be written for each byte of room and 14
        times as often the channel brings something, in any pattern of waits, the read is completed. */
    method ReadOut(buffer: array<byte>, maxlen: nat, ghost base: nat) returns (rc: Code)
      requires Sane() && maxlen <= buffer.Length && maxlen < TWO32 && base + maxlen < TWO64
      requires readState == Idle && offset == base && Still()
      requires Broken !in writes && Goes(writes) >= maxlen
      requires (forall a <- framer.answers :: a != SftpFrame.Broken && !SftpFrame.IsShort(a)) &&
               SftpFrame.Brings(framer.answers) >= 14 * maxlen
      modifies buffer, this, framer
      ensures rc.Ok? && rc.n <= maxlen && Filled(buffer[..], base, rc.n) && (rc.n == maxlen || AtEnd())
      ensures rc.n > 0 ==> base + rc.n <= |file| && buffer[..rc.n] == file[base..base + rc.n]
      ensures offset == base + rc.n && (rc.n == maxlen || base + rc.n >= |file|)
    {
      hide Request, Piece, Sftp.Filled, Went, Waits, Breaks, Leaves, Hears, NotYet, Fails, Frame, Reply;
      hide Sftp.Asking, Sftp.Still, Sftp.Requests, Sftp.Progress, Sftp.Split, Sftp.AtEnd, Goes, SftpFrame.Brings;
      NothingRead(buffer[..], base);
      rc := Read(buffer, maxlen, base);
      NotBroken(old(writes), old(writes), writes);
      NotFailed(old(framer.answers), old(framer.answers), framer.answers);
      while rc == Eagain
        invariant rc != Error && Leaves(old(writes), writes) && Leaves(old(framer.answers), framer.answers)
        invariant rc == Eagain ==> Asking(readTotalRead, maxlen) && Filled(buffer[..], base, readTotalRead)
        invariant rc == Eagain ==> Went(old(writes), writes, Requests()) && Hears(old(framer.answers), framer.answers, Progress())
        invariant rc.Ok? ==> rc.n <= maxlen && Filled(buffer[..], base, rc.n) && (rc.n == maxlen || AtEnd())
        decreases if rc == Eagain then |writes| + |framer.answers| + 1 else 0
      {
        ghost var before, answers, requests, progress := writes, framer.answers, Requests(), Progress();
        AskingMeans(readTotalRead, maxlen);
        rc := Read(buffer, maxlen, base);
        NotBroken(old(writes), before, writes);
        NotFailed(old(framer.answers), answers, framer.answers);
        if rc == Eagain {
          WentOn(old(writes), before, writes, requests, Requests() - requests);
          HearsThen(old(framer.answers), answers, framer.answers, progress, Progress() - progress);
          NotRunOut(old(writes), old(framer.answers), maxlen);
          Shorter(before, writes, answers, framer.answers);
        }
      }
      FilledMeans(buffer[..], base, rc.n);
      assert buffer[..][..rc.n] == buffer[..rc.n];
    }

    lemma FilledMeans(b: seq<byte>, base: nat, total: nat)
      requires Filled(b, base, total)
      ensures total <= |b| && offset == base + total && (AtEnd() ==> base + total >= |file|)
      ensures total > 0 ==> base + total <= |file| && b[..total] == file[base..base + total]
    {
    }
  }

  /** A file of one byte, and a connection that never breaks but brings two bytes at a time: the read fails,
      and the reply is lost. */
  method ReplyLost() returns (rc: Code, s: Sftp)
    ensures rc == Error
  {
    hide Request, Piece, Went, Waits, Breaks, Leaves, Hears, NotYet, Fails, Frame, Reply, Sftp.Expecting, Sftp.Honest;
    var buffer := new byte[1];
    s := new Sftp([], [7], 0, [Go], [1], [SftpFrame.Upto(2), SftpFrame.Upto(2)]);
    assert Next(s.writes) == Go && s.framer.answers != [] && SftpFrame.IsShort(s.framer.answers[0]);
    assert s.Split();
    rc := s.Read(buffer, 1, 0);
  }

  lemma WentOn(first: seq<Turn>, before: seq<Turn>, after: seq<Turn>, n: int, m: int)
    requires Went(first, before, n) && Went(before, after, m)
    ensures Went(first, after, n + m) && Leaves(first, after)
    ensures before != [] && Waits(before, after) ==> |after| < |before|
  {
    LeavesOn(first, before, after);
    GoesConcat(Used(first, before), Used(before, after));
  }

  lemma GoesOn(first: seq<Turn>, before: seq<Turn>, after: seq<Turn>)
    requires Leaves(first, before)
    ensures Breaks(before, after) ==> Breaks(first, after)
    ensures Waits(before, after) ==> Waits(first, after)
    ensures Leaves(before, after) ==> Leaves(first, after)
  {
    if Leaves(before, after) {
      LeavesOn(first, before, after);
    }
  }

  lemma NotBroken(first: seq<Turn>, before: seq<Turn>, after: seq<Turn>)
    requires Broken !in first && Leaves(first, before) && Leaves(before, after)
    ensures Leaves(first, after) && !Breaks(before, after)
  {
    LeavesOn(first, before, after);
  }

  lemma NotFailed(first: seq<SftpFrame.Answer>, before: seq<SftpFrame.Answer>, after: seq<SftpFrame.Answer>)
    requires forall a <- first :: a != SftpFrame.Broken && !SftpFrame.IsShort(a)
    requires Leaves(first, before) && Leaves(before, after)
    ensures Leaves(first, after) && !Fails(before, after)
  {
    LeavesOn(first, before, after);
    var used := Used(before, after);
    if used != [] {
      var last := used[|used| - 1];
      assert last == before[|used| - 1] == first[|first| - |after| - 1];
      assert last in first;
    }
  }

  lemma Shorter(turns: seq<Turn>, turns': seq<Turn>, answers: seq<SftpFrame.Answer>, answers': seq<SftpFrame.Answer>)
    requires Leaves(turns, turns') && Leaves(answers, answers')
    ensures |turns'| <= |turns| && |answers'| <= |answers|
    ensures Waits(turns, turns') && turns' != [] ==> |turns'| < |turns|
    ensures NotYet(answers, answers') && answers' != [] ==> |answers'| < |answers|
  {
  }

  lemma AllHeard(answers: seq<SftpFrame.Answer>, n: int)
    requires Hears(answers, [], n)
    ensures SftpFrame.Brings(answers) <= n
  {
    assert Used(answers, []) == answers;
  }

  lemma AllUsed(turns: seq<Turn>, n: int)
    requires Went(turns, [], n)
    ensures Goes(turns) <= n
  {
    assert Used(turns, []) == turns;
  }
}
