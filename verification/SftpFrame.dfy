/** `sftp_packet_read`: SFTP packets framed off a channel, whatever pieces it comes in. */
module SftpFrame {
  import opened Bytes
  import opened Brigade
  import opened Scripts

  const PACKET_MAXLEN := 40000

  /** How the channel answers a read: with at most so many bytes (at least one), not now, or not at all. */
  datatype Answer = Upto(k: nat) | NotYet | Broken

  datatype Code = Added | Eagain | Error

  /** Packets as they travel, each behind its length. */
  function Framed(packets: seq<seq<byte>>): seq<byte>
    requires forall p <- packets :: |p| < TWO32
  {
    if packets == [] then [] else
    var n := |packets| - 1;
    Framed(packets[..n]) + (U32Bytes(|packets[n]|) + packets[n])
  }

  lemma FramedMore(packets: seq<seq<byte>>, p: seq<byte>)
    requires (forall q <- packets :: |q| < TWO32) && |p| < TWO32
    ensures Framed(packets + [p]) == Framed(packets) + (U32Bytes(|p|) + p)
  {
    assert (packets + [p])[..|packets|] == packets;
  }

  /** The answer a read gets; a script that has run out has nothing yet. */
  function Next(answers: seq<Answer>): Answer {
    if answers == [] then NotYet else answers[0]
  }

  /** The bytes that answer brings to a read of `want`. */
  function Given(a: Answer, stream: seq<byte>, want: nat): (got: seq<byte>)
    ensures got <= stream && |got| <= want
  {
    if !a.Upto? then [] else
    var n := if a.k == 0 then 1 else a.k;
    var m := if n > want then want else n;
    stream[..if m > |stream| then |stream| else m]
  }

  class Framer {
    /** What the channel still has to deliver. */
    var stream: seq<byte>
    var answers: seq<Answer>
    /** `partial_packet` with what was received of it, and `partial_len`. */
    var partial: Option<seq<byte>>
    var partialLen: u32
    var packets: seq<seq<byte>>

    constructor (stream: seq<byte>, answers: seq<Answer>)
      ensures Valid() && packets == [] && partial == None
      ensures this.stream == stream && this.answers == answers
    {
      this.stream, this.answers := stream, answers;
      partial, partialLen, packets := None, 0, [];
    }

    ghost predicate Valid()
      reads this`partial, this`partialLen, this`packets
    {
      (partial.Some? ==> |partial.value| <= partialLen) && forall p <- packets :: |p| < TWO32
    }

    /** Of the packet begun, length and bytes received; then what is still to come. */
    ghost function Unframed(): seq<byte>
      reads this`partial, this`partialLen, this`stream
    {
      (if partial.Some? then U32Bytes(partialLen) + partial.value else []) + stream
    }

    /** All that ever came, as far as nothing was lost. */
    ghost function History(): seq<byte>
      requires Valid()
      reads this
    {
      Framed(packets) + Unframed()
    }

    /** `libssh2_channel_read_ex` on a channel that is not at its end; `code` is Added for bytes. */
    method ChannelRead(want: nat) returns (code: Code, got: seq<byte>)
      requires want > 0
      modifies this`stream, this`answers
      ensures answers == Later(old(answers)) && got == Given(Next(old(answers)), old(stream), want)
      ensures stream == old(stream)[|got|..]
      ensures code == if Next(old(answers)) == Broken then Error else if got == [] then Eagain else Added
      ensures code != Added ==> got == []
    {
      var a := if answers == [] then NotYet else answers[0];
      answers := if answers == [] then [] else answers[1..];
      if a == Broken {
        return Error, [];
      }
      if a == NotYet || stream == [] {
        return Eagain, [];
      }
      var n := if a.k == 0 then 1 else a.k;
      n := if n > want then want else n;
      n := if n > |stream| then |stream| else n;
      got := stream[..n];
      stream := stream[n..];
      return Added, got;
    }

    /** The loop of lines 178-210: the rest of a packet. */
    method Receive(begun: seq<byte>, packetLen: u32) returns (code: Code, packet: seq<byte>)
      requires |begun| <= packetLen && partial == None
      modifies this`stream, this`answers, this`partial, this`partialLen
      ensures |begun| <= |packet| <= packetLen && packet + stream == begun + old(stream)
      ensures code == Added ==> |packet| == packetLen && partial == None
      ensures code == Eagain ==> partial == Some(packet) && partialLen == packetLen > |packet| && Stuck(old(answers), answers, stream)
      ensures code == Error ==> partial == None && Ends(old(answers), answers, IsBroken)
      ensures Leaves(old(answers), answers)
      ensures code != Error ==> Unbroken(old(answers), answers)
      ensures !(code == Eagain && stream == []) ==> Bringing(old(answers), answers, |old(stream)| - |stream|)
    {
      hide Given, Stuck, Ends, Leaves, Unbroken, Later, Next, Bringing;
      NoneUsed(answers);
      packet := begun;
      while packetLen > |packet|
        invariant |begun| <= |packet| <= packetLen && packet + stream == begun + old(stream)
        invariant partial == None
        invariant Leaves(old(answers), answers)
        invariant Unbroken(old(answers), answers) && Bringing(old(answers), answers, |old(stream)| - |stream|)
      {
        ghost var before, was := answers, stream;
        var got;
        code, got := ChannelRead(packetLen - |packet|);
        Associative(packet, got, stream);
        Halves(packet, got, was);
        OneMore(old(answers), before, was, packetLen - |packet|);
        if code == Eagain {
          partial, partialLen := Some(packet), packetLen;
          return;
        } else if code == Error {
          return;
        }
        packet := packet + got;
      }
      code := Added;
    }

    /** Lines 127-164: the length, in one read. */
    method ReadLength() returns (code: Code, packetLen: u32)
      modifies this`stream, this`answers
      ensures code == Added ==> U32Bytes(packetLen) + stream == old(stream)
      ensures code == Eagain ==> stream == old(stream) && Stuck(old(answers), answers, stream)
      ensures code == Error ==> Unusable(old(answers), old(stream)) || Ends(old(answers), answers, IsBroken)
      ensures Unusable(old(answers), old(stream)) ==>
                code == Error && stream == old(stream)[|Given(Next(old(answers)), old(stream), 4)|..]
      ensures answers == Later(old(answers)) && Leaves(old(answers), answers)
      ensures code != Error ==> Unbroken(old(answers), answers)
      ensures !(code == Eagain && stream == []) ==> Bringing(old(answers), answers, |old(stream)| - |stream|)
    {
      hide U32Of, U32Bytes, Given, Stuck, Ends, Bringing;
      NoneUsed(answers);
      packetLen := 0;
      ghost var was, answers0 := stream, answers;
      var buffer;
      code, buffer := ChannelRead(4);
      assert was == buffer + stream;
      OneMore(answers0, answers0, was, 4);
      if code == Eagain {
        assert [] + stream == stream;
      } else if code != Error && |buffer| != 4 {
        code := Error;
      } else if code != Error {
        packetLen := U32Of(buffer);
        U32Injective(buffer);
        if packetLen > PACKET_MAXLEN {
          code := Error;
        }
      }
    }

    /** `sftp_packet_read`. Nothing is lost however often it is interrupted in a packet. It gives up just
        when the channel breaks, when a length is over the limit, or when a length itself came in pieces. */
    method PacketRead() returns (code: Code)
      requires Valid()
      modifies this
      ensures Valid()
      ensures code != Error ==> History() == old(History())
      ensures if code == Added then |packets| == |old(packets)| + 1 && old(packets) <= packets && partial == None
              else packets == old(packets)
      ensures Leaves(old(answers), answers)
      ensures code == Eagain ==> Stuck(old(answers), answers, stream) && (partial.Some? ==> |partial.value| < partialLen)
      ensures code != Error ==> Unbroken(old(answers), answers)
      ensures !(code == Eagain && stream == []) ==> Bringing(old(answers), answers, |old(stream)| - |stream|)
      ensures code == Error ==>
                (old(partial) == None && Unusable(old(answers), old(stream))) || Ends(old(answers), answers, IsBroken)
      ensures old(partial) == None && Unusable(old(answers), old(stream)) ==>
                && code == Error && partial == None && answers == Later(old(answers))
                && stream == old(stream)[|Given(Next(old(answers)), old(stream), 4)|..]
    {
      hide U32Of, U32Bytes, Framed, Given, Stuck, Ends, Leaves, Unbroken, Later, Unusable, Next, Bringing;
      NoneUsed(answers);
      var packet: seq<byte>, packetLen: u32;
      ghost var all := Unframed();
      if partial.Some? {
        packet, packetLen := partial.value, partialLen;
        partial := None;
      } else {
        Front(stream);
        code, packetLen := ReadLength();
        if code != Added {
          Front(stream);
          return;
        }
        packet := [];
        Front(U32Bytes(packetLen));
      }
      ghost var before, begun, left := answers, packet, stream;
      code, packet := Receive(packet, packetLen);
      WereUsed(old(answers), before, answers, stream);
      Associative(U32Bytes(packetLen), begun, left);
      Associative(U32Bytes(packetLen), packet, stream);
      assert all == U32Bytes(packetLen) + packet + stream;
      if code == Added {
        FramedMore(packets, packet);
        Associative(Framed(packets), U32Bytes(packetLen) + packet, stream);
        packets := packets + [packet];
        Front(stream);
      }
    }
  }

  /** The length comes in pieces, or is over the limit. */
  ghost predicate Unusable(answers: seq<Answer>, stream: seq<byte>) {
    var first := Given(Next(answers), stream, 4);
    0 < |first| < 4 || (|first| == 4 && U32Of(first) > 40000)
  }

  predicate IsBroken(a: Answer) {
    a == Broken
  }

  /** Not even a length comes in at once. */
  predicate IsShort(a: Answer) {
    a.Upto? && a.k < 4
  }

  predicate IsNotYet(a: Answer) {
    a == NotYet
  }

  /** None of the answers used was that the channel is broken. */
  ghost predicate Unbroken(before: seq<Answer>, after: seq<Answer>) {
    Leaves(before, after) && Broken !in Used(before, after)
  }

  /** How many of the answers bring bytes. */
  function Brings(answers: seq<Answer>): nat {
    if answers == [] then 0 else
    var n := |answers| - 1;
    Brings(answers[..n]) + if answers[n].Upto? then 1 else 0
  }

  lemma {:induction false} BringsConcat(a: seq<Answer>, b: seq<Answer>)
    ensures Brings(a + b) == Brings(a) + Brings(b)
    decreases |b|
  {
    if b == [] {
      assert a + b == a;
    } else {
      BringsConcat(a, b[..|b| - 1]);
      assert (a + b)[..|a + b| - 1] == a + b[..|b| - 1];
    }
  }

  /** At most `n` of the answers used brought bytes. */
  ghost predicate Bringing(before: seq<Answer>, after: seq<Answer>, n: int) {
    Leaves(before, after) && Brings(Used(before, after)) <= n
  }

  /** The last answer used was that there is nothing now, or there were no more answers, or no bytes. */
  ghost predicate Stuck(before: seq<Answer>, after: seq<Answer>, stream: seq<byte>) {
    Ends(before, after, IsNotYet) || after == [] || stream == []
  }

  lemma NoneUsed(answers: seq<Answer>)
    ensures Leaves(answers, answers) && Unbroken(answers, answers) && Bringing(answers, answers, 0)
  {
  }

  lemma Front(s: seq<byte>)
    ensures [] + s == s && s + [] == s
  {
  }

  lemma Halves(packet: seq<byte>, got: seq<byte>, was: seq<byte>)
    requires got <= was
    ensures packet + got + was[|got|..] == packet + was
    ensures got == [] ==> packet + got == packet && was[|got|..] == was
  {
    assert got + was[|got|..] == was;
  }

  /** What one more read tells. */
  lemma OneMore(first: seq<Answer>, before: seq<Answer>, stream: seq<byte>, want: nat)
    requires Leaves(first, before) && want > 0
    ensures Leaves(first, Later(before))
    ensures Next(before) == Broken ==> Ends(first, Later(before), IsBroken)
    ensures Next(before) != Broken && Unbroken(first, before) ==> Unbroken(first, Later(before))
    ensures Given(Next(before), stream, want) == [] && Next(before) != Broken ==> Stuck(first, Later(before), stream)
    ensures var got := Given(Next(before), stream, want);
            forall n :: Bringing(first, before, n) && (stream != [] || !Next(before).Upto?) ==> Bringing(first, Later(before), n + |got|)
    ensures Next(before) == NotYet || Next(before) == Broken ==> Given(Next(before), stream, want) == []
    ensures want == 4 <= |stream| && |Given(Next(before), stream, want)| in {1, 2, 3} ==> Ends(first, Later(before), IsShort)
  {
    if before != [] {
      EndsLater(first, before, IsBroken);
      EndsLater(first, before, IsNotYet);
      EndsLater(first, before, IsShort);
      BringsConcat(Used(first, before), [before[0]]);
      assert [before[0]][..0] == [];
    }
  }

  lemma WereUsed(first: seq<Answer>, before: seq<Answer>, after: seq<Answer>, stream: seq<byte>)
    requires Leaves(first, before) && Leaves(before, after)
    ensures Leaves(first, after) && (Unbroken(first, before) && Unbroken(before, after) ==> Unbroken(first, after))
    ensures Ends(before, after, IsBroken) ==> Ends(first, after, IsBroken)
    ensures Stuck(before, after, stream) ==> Stuck(first, after, stream)
    ensures forall n, m :: Bringing(first, before, n) && Bringing(before, after, m) ==> Bringing(first, after, n + m)
  {
    LeavesOn(first, before, after);
    BringsConcat(Used(first, before), Used(before, after));
  }

  /** A packet of one byte whose length comes in two pieces of two: the packet is given up, and the next
      call takes the rest of its length for the length of another. */
  method SplitLength() returns (first: Code, second: Code, f: Framer)
    ensures first == Error && second == Error && f.packets == []
  {
    hide Framer.History, Framer.Unframed, Framed, Stuck, Ends;
    f := new Framer([0, 0, 0, 1, 7], [Upto(2), Upto(2)]);
    assert Given(Upto(2), f.stream, 4) == [0, 0];
    first := f.PacketRead();
    assert f.stream == [0, 1, 7] && f.answers == [Upto(2)];
    assert Given(Upto(2), f.stream, 4) == [0, 1];
    second := f.PacketRead();
  }
}
