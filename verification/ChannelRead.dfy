/** `libssh2_channel_read_ex`: the packets of one stream of one channel, read as a byte queue. */
module ChannelRead {
  import opened Bytes
  import opened Brigade
  import opened Flow
  import opened ByteQueue
  import opened ChannelWorld
  import opened Channels

  /** Where the scan stands: all before it is none of the reader's; at the end of a scan of the
      `whole` list nothing is. */
  ghost predicate Cursor(s: Session, r: Consumer, n: Node?, at: nat, whole: bool)
    reads s.packets
  {
    if n == null then whole ==> NoneMatches(r, s.packets.view) else
    at < |s.packets.nodes| == |s.packets.view| && s.packets.nodes[at] == n && NoneMatches(r, s.packets.view[..at])
  }

  /** A read interrupted while refunding: the packet read last is already out of the list. */
  ghost predicate Paused(s: Session, c: Channel, r: Consumer)
    reads s.packets`nodes, c`readNext, c`readPacket
  {
    && c.readPacket != null && Refundable(c.readPacket.data, r.stream)
    && Held(r, c.readNext, s.packets.nodes)
  }

  lemma CursorHeld(s: Session, r: Consumer, n: Node?, at: nat, whole: bool)
    requires s.packets.Valid() && Cursor(s, r, n, at, whole)
    ensures Held(r, n, s.packets.nodes)
  {
    hide Matches;
    if n != null {
      forall m <- s.packets.nodes | m.stamp < n.stamp
        ensures !Matches(r, m.data)
      {
        var i :| 0 <= i < |s.packets.nodes| && s.packets.nodes[i] == m;
        assert s.packets.view[..at][i].data == m.data;
      }
    }
  }

  lemma HeldCursor(s: Session, r: Consumer, n: Node?) returns (at: nat)
    requires s.packets.Valid() && Held(r, n, s.packets.nodes)
    ensures Cursor(s, r, n, at, false)
  {
    hide Matches;
    at := 0;
    if n != null {
      at :| at < |s.packets.nodes| && s.packets.nodes[at] == n;
      forall i | 0 <= i < at
        ensures !Matches(r, s.packets.view[..at][i].data)
      {
        assert s.packets.nodes[i].stamp < n.stamp;
      }
    }
  }

  predicate Refundable(data: seq<byte>, stream: u32) {
    |data| < TWO32 && |data| >= RefundHead(stream)
  }

  /** What is to be refunded for a packet, by the stream it is read for. */
  function Amount(data: seq<byte>, stream: u32): u32
    requires Refundable(data, stream)
  {
    |data| - RefundHead(stream)
  }

  /** A call of the function: for whom it reads, the refund it repeats if it was interrupted in one, the
      session, the brigade and the buffer as it found them. */
  datatype Call = Call(r: Consumer, repeats: Option<u32>, world: World, view: seq<Pkt>, held: seq<byte>)

  /** Deeds of a reader: packets read and refunds asked for its own channel, a refund repeated just at
      the start of a call that goes on with one. */
  predicate ByReader(k: Call, deeds: seq<Deed>) {
    && (deeds != [] && k.repeats.Some? ==> deeds[0] == Repeat(k.r.id, k.repeats.value))
    && forall i | 0 <= i < |deeds| && (i > 0 || k.repeats == None) ::
         deeds[i].Listen? || (deeds[i].Refund? && deeds[i].id == k.r.id)
  }

  /** After these deeds of a call the session is what they make of it; what is in the buffer and what
      is left in the brigade are in step with what was there and what they linked; and they refund what
      is gone from there, but for what is still `due`. */
  ghost predicate InStep(k: Call, deeds: seq<Deed>, world: World, view: seq<Pkt>, got: seq<byte>, due: nat) {
    && world == After(k.world, deeds) && ByReader(k, deeds)
    && Progress(k.r, k.view, k.held, Linked(k.world, deeds), view, got, Refunds(k.r.id, deeds) + due)
  }

  lemma InStepStarts(k: Call)
    ensures InStep(k, [], k.world, k.view, k.held, 0)
  {
    ProgressStart(k.r, k.view, k.held);
  }

  lemma InStepListens(k: Call, deeds: seq<Deed>, world: World, view: seq<Pkt>, got: seq<byte>)
    requires InStep(k, deeds, world, view, got, 0) && (deeds == [] ==> k.repeats == None)
    ensures InStep(k, deeds + [Listen], Listened(world), view + ReadLinks(world), got, 0)
  {
    hide Progress, Listened, ReadLinks, After, Linked, Refunds;
    AfterMore(k.world, deeds, Listen);
    ProgressArrive(k.r, k.view, k.held, Linked(k.world, deeds), view, got, Refunds(k.r.id, deeds), ReadLinks(world));
  }

  lemma InStepRefunds(k: Call, deeds: seq<Deed>, world: World, view: seq<Pkt>, got: seq<byte>, due: u32)
    requires InStep(k, deeds, world, view, got, due) && (deeds == [] ==> k.repeats == None)
    ensures InStep(k, deeds + [Refund(k.r.id, due)], Done(world, Refund(k.r.id, due)), view, got, 0)
  {
    hide Progress, Done, After, Linked, Refunds;
    AfterMore(k.world, deeds, Refund(k.r.id, due));
    assert Linked(k.world, deeds) + [] == Linked(k.world, deeds);
  }

  lemma InStepRepeats(k: Call, world: World, view: seq<Pkt>, got: seq<byte>)
    requires InStep(k, [], world, view, got, 0) && k.repeats.Some?
    ensures var d := Repeat(k.r.id, k.repeats.value);
            InStep(k, [d], Done(world, d), view, got, 0)
  {
    hide Progress, Done, After, Linked, Refunds;
    var d := Repeat(k.r.id, k.repeats.value);
    AfterMore(k.world, [], d);
    assert [] + [d] == [d];
    assert Linked(k.world, []) + [] == Linked(k.world, []);
  }

  lemma InStepReads(k: Call, deeds: seq<Deed>, world: World, view: seq<Pkt>, got: seq<byte>, i: nat, n: nat)
    requires InStep(k, deeds, world, view, got, 0)
    requires i < |view| && NoneMatches(k.r, view[..i]) && Matches(k.r, view[i].data)
    requires view[i].head + n <= |view[i].data|
    ensures var p := view[i];
            InStep(k, deeds, world, view[i := Pkt(p.data, p.head + n)], got + p.data[p.head..p.head + n], 0)
  {
    hide Progress, After, Linked, Refunds, Matches, NoneMatches;
    ProgressPart(k.r, k.view, k.held, Linked(k.world, deeds), view, got, Refunds(k.r.id, deeds), i, n);
  }

  lemma InStepUnlinks(k: Call, deeds: seq<Deed>, world: World, view: seq<Pkt>, got: seq<byte>, i: nat)
    requires InStep(k, deeds, world, view, got, 0)
    requires i < |view| && NoneMatches(k.r, view[..i]) && Matches(k.r, view[i].data) && Unread(view[i]) == []
    requires Refundable(view[i].data, k.r.stream)
    ensures InStep(k, deeds, world, Without(view, i), got, Amount(view[i].data, k.r.stream))
  {
    hide Progress, After, Linked, Refunds, Matches, NoneMatches;
    ProgressUnlink(k.r, k.view, k.held, Linked(k.world, deeds), view, got, Refunds(k.r.id, deeds), i);
  }

  /** Lines 1589-1609: as much of a packet as fits is copied out. */
  method CopyOut(s: Session, c: Channel, buf: array<byte>, buflen: nat, packet: Node, ghost at: nat, ghost whole: bool,
                 ghost k: Call, ghost deeds: seq<Deed>) returns (unlink: bool)
    requires s.packets.Valid() && c.readBytesRead < buflen <= buf.Length
    requires Cursor(s, k.r, packet, at, whole) && Matches(k.r, packet.data)
    requires InStep(k, deeds, s.World(), s.packets.view, buf[..c.readBytesRead], 0)
    modifies s.packets`view, packet`dataHead, buf, c`readBytesRead
    ensures s.packets.Valid() && Cursor(s, k.r, packet, at, whole) && c.readBytesRead <= buflen
    ensures InStep(k, deeds, s.World(), s.packets.view, buf[..c.readBytesRead], 0)
    ensures unlink <==> Unread(s.packets.view[at]) == []
    ensures unlink <==> buflen - old(c.readBytesRead) >= |packet.data| - old(packet.dataHead)
    ensures !unlink ==> c.readBytesRead == buflen
  {
    hide InStep, NoneMatches, Matches, List.Valid, Session.World;
    ghost var v, got := s.packets.view, buf[..c.readBytesRead];
    s.packets.Entry(at);
    CursorAt(s, k.r, packet, at, whole);
    var want := buflen - c.readBytesRead;
    unlink := false;
    if want >= |packet.data| - packet.dataHead {
      want := |packet.data| - packet.dataHead;
      unlink := true;
    }
    var part := packet.data[packet.dataHead..packet.dataHead + want];
    InStepReads(k, deeds, s.World(), v, got, at, want);
    StoreBytes(buf, c.readBytesRead, part);
    s.packets.Advance(packet, at, want);
    s.packets.Entry(at);
    c.readBytesRead := c.readBytesRead + want;
    assert buf[..c.readBytesRead] == got + part;
    assert s.packets.view[..at] == v[..at];
  }

  lemma CursorAt(s: Session, r: Consumer, n: Node, at: nat, whole: bool)
    requires Cursor(s, r, n, at, whole) && Matches(r, n.data)
    requires |s.packets.view| == |s.packets.nodes| && s.packets.view[at].data == n.data
    ensures at < |s.packets.view| && NoneMatches(r, s.packets.view[..at]) && Matches(r, s.packets.view[at].data)
  {
  }

  /** One turn of the scan up to line 1630: the packet is passed over, read in part, or read to its
      end and unlinked. */
  method Visit(s: Session, c: Channel, streamId: u32, buf: array<byte>, buflen: nat, packet: Node, ghost at: nat,
               ghost whole: bool, ghost k: Call, ghost deeds: seq<Deed>) returns (unlink: bool, ghost at': nat)
    requires s.packets.Valid() && c.readBytesRead < buflen <= buf.Length
    requires k.r == Consumer(c.localId, streamId, c.ignoreMode)
    requires Cursor(s, k.r, packet, at, whole)
    requires InStep(k, deeds, s.World(), s.packets.view, buf[..c.readBytesRead], 0)
    modifies s.packets, s.packets.Objects(), buf, c`readBytesRead, c`readNext
    ensures s.packets.Valid() && c.readBytesRead <= buflen && (unlink ==> Refundable(packet.data, streamId))
    ensures InStep(k, deeds, s.World(), s.packets.view, buf[..c.readBytesRead],
                   if unlink then Amount(packet.data, streamId) else 0)
    ensures unlink || c.readBytesRead < buflen ==> Cursor(s, k.r, c.readNext, at', whole)
    ensures at' <= |s.packets.nodes| && |s.packets.nodes| - at' < |old(s.packets.nodes)| - at
    ensures s.packets.Objects() <= old(s.packets.Objects()) && ReadBy(k.r, old(s.packets.Rolled()), s.packets.Rolled())
    ensures c.readNext == old(s.packets.At(at + 1))
    ensures unlink <==> Matches(k.r, packet.data) && buflen - old(c.readBytesRead) >= |packet.data| - old(packet.dataHead)
    ensures s.packets.nodes == if unlink then Without(old(s.packets.nodes), at) else old(s.packets.nodes)
  {
    hide InStep, NoneMatches, Matches, List.Valid, ReadBy, Since, Without, Session.World;
    unlink, at' := false, at + 1;
    ghost var v, nodes := s.packets.view, s.packets.nodes;
    s.packets.Entry(at);
    SinceNow(s.packets.Rolled());
    OnlyAdded(k.r, s.packets.Rolled(), s.packets.Rolled());
    c.readNext := packet.next;
    if Matches(Consumer(c.localId, streamId, c.ignoreMode), packet.data) {
      MatchLength(k.r, packet.data);
      unlink := CopyOut(s, c, buf, buflen, packet, at, whole, k, deeds);
      if unlink {
        v := s.packets.view;
        s.packets.Entry(at);
        CursorAt(s, k.r, packet, at, whole);
        InStepUnlinks(k, deeds, s.World(), v, buf[..c.readBytesRead], at);
        TakenOff(k.r, s.packets.Rolled(), at);
        s.packets.Unlink(packet, at);
        at' := at;
        NoneBefore(k.r, v, at);
        WithoutAt(nodes, at);
        WithoutAt(v, at);
      }
    } else {
      NoneUpTo(k.r, v, at);
    }
  }

  lemma MatchLength(r: Consumer, data: seq<byte>)
    requires Matches(r, data)
    ensures |data| >= RefundHead(r.stream)
  {
  }

  lemma NoneBefore(r: Consumer, v: seq<Pkt>, at: nat)
    requires at < |v| && NoneMatches(r, v[..at])
    ensures NoneMatches(r, Without(v, at)[..at])
    ensures at == |Without(v, at)| ==> NoneMatches(r, Without(v, at))
  {
    assert Without(v, at)[..at] == v[..at];
    assert at == |Without(v, at)| ==> Without(v, at) == v[..at];
  }

  lemma NoneUpTo(r: Consumer, v: seq<Pkt>, at: nat)
    requires at < |v| && NoneMatches(r, v[..at]) && !Matches(r, v[at].data)
    ensures NoneMatches(r, v[..at + 1])
    ensures at + 1 == |v| ==> NoneMatches(r, v)
  {
    assert v[..at + 1] == v[..at] + [v[at]];
    assert at + 1 == |v| ==> v[..at + 1] == v;
  }

  /** A refund the caller takes for interrupted. */
  predicate Stops(w: World, d: Deed) {
    (d.Refund? || d.Repeat?) && IsTakenForAgain(w, d.id, d.amount)
  }

  /** None of the deeds was interrupted. */
  ghost predicate Smooth(w: World, deeds: seq<Deed>) {
    forall i | 0 <= i < |deeds| :: !Stops(After(w, deeds[..i]), deeds[i])
  }

  /** The last of them was, in a refund of `a`, and no other. */
  ghost predicate Stopped(w: World, deeds: seq<Deed>, a: u32) {
    deeds != [] &&
    var front, last := deeds[..|deeds| - 1], deeds[|deeds| - 1];
    Smooth(w, front) && Stops(After(w, front), last) && last.amount == a
  }

  lemma SmoothMore(w: World, deeds: seq<Deed>, d: Deed)
    requires Smooth(w, deeds)
    ensures if Stops(After(w, deeds), d) then Stopped(w, deeds + [d], d.amount) else Smooth(w, deeds + [d])
    ensures d == Listen ==> Answered(w, deeds + [d], ReadAnswer(After(w, deeds)))
  {
    hide After, IsTakenForAgain, ReadAnswer;
    var all := deeds + [d];
    assert all[..|deeds|] == deeds;
    forall i | 0 <= i < |deeds|
      ensures all[..i] == deeds[..i] && all[i] == deeds[i]
    {
    }
  }

  /** Lines 1632-1644: the window is adjusted for a packet read to its end. */
  method RefundPacket(s: Session, c: Channel, streamId: u32, ghost resume: bool) returns (blocked: bool)
    requires s.IdsOk() && s.AllSteady() && c in s.channels
    requires c.readPacket != null && Refundable(c.readPacket.data, streamId)
    modifies s`sends, s`sent, c`remoteWindow, c`adjustQueue, c`adjustState, c`adjustAdjust, c`readState, c`readPacket
    ensures s.AllSteady()
    ensures c.readState == if blocked then Jump1 else Created
    ensures c.readPacket == if blocked then old(c.readPacket) else null
    ensures var a := Amount(old(c.readPacket).data, streamId);
            && s.World() == Done(old(s.World()), if resume then Repeat(c.localId, a) else Refund(c.localId, a))
            && blocked == IsTakenForAgain(old(s.World()), c.localId, a)
  {
    hide Session.World, Session.AllSteady, Session.IdsOk, IsTakenForAgain, Done;
    RepeatIsRefund(s.World(), c.localId, |c.readPacket.data| - RefundHead(streamId));
    c.readState := Jump1;
    blocked := s.Readjust(c, |c.readPacket.data| - (if streamId != 0 then 13 else 9));
    if blocked {
      return;
    }
    c.readState := Created;
    c.readPacket := null;
  }

  lemma RepeatIsRefund(w: World, id: u32, a: u32)
    ensures Done(w, Repeat(id, a)) == Done(w, Refund(id, a))
  {
  }

  /** One turn of the scan, with the refund of a packet read to its end. */
  method Turn(s: Session, c: Channel, streamId: u32, buf: array<byte>, buflen: nat, ghost at: nat, ghost whole: bool,
              ghost k: Call, ghost deeds: seq<Deed>) returns (blocked: bool, ghost at': nat, ghost deeds': seq<Deed>)
    requires s.Valid() && c in s.channels && k.r == Consumer(c.localId, streamId, c.ignoreMode)
    requires c.readBytesRead < buflen <= buf.Length && c.readState == Created && c.readPacket != null
    requires Cursor(s, k.r, c.readPacket, at, whole)
    requires InStep(k, deeds, s.World(), s.packets.view, buf[..c.readBytesRead], 0) && Smooth(k.world, deeds)
    requires deeds == [] ==> k.repeats == None
    modifies s`sends, s`sent, s.packets, s.packets.Objects(), buf
    modifies c`remoteWindow, c`adjustQueue, c`adjustState, c`adjustAdjust
    modifies c`readState, c`readPacket, c`readNext, c`readBytesRead
    ensures s.Valid() && c.readBytesRead <= buflen && deeds <= deeds'
    ensures InStep(k, deeds', s.World(), s.packets.view, buf[..c.readBytesRead], 0)
    ensures s.packets.Objects() <= old(s.packets.Objects()) && ReadBy(k.r, old(s.packets.Rolled()), s.packets.Rolled())
    ensures if blocked then InRefund(s, c, k, deeds')
            else c.readState == Created && Smooth(k.world, deeds') &&
                 (c.readBytesRead < buflen ==> Cursor(s, k.r, c.readPacket, at', whole))
    ensures at' <= |s.packets.nodes| && |s.packets.nodes| - at' < |old(s.packets.nodes)| - at
  {
    hide InStep, NoneMatches, Matches, List.Valid, Cursor, Held, ReadBy, Since, Smooth, Stopped, After, Done;
    hide Session.IdsOk, Session.AllSteady, Session.InputOk, Session.World, IsTakenForAgain;
    blocked, deeds' := false, deeds;
    ghost var w := s.World();
    var unlink;
    unlink, at' := Visit(s, c, streamId, buf, buflen, c.readPacket, at, whole, k, deeds);
    if unlink {
      CursorHeld(s, k.r, c.readNext, at', whole);
      ghost var d := Refund(c.localId, Amount(c.readPacket.data, streamId));
      InStepWorld(k, deeds, s.World(), s.packets.view, buf[..c.readBytesRead], d.amount);
      InStepRefunds(k, deeds, s.World(), s.packets.view, buf[..c.readBytesRead], d.amount);
      SmoothMore(k.world, deeds, d);
      blocked := RefundPacket(s, c, streamId, false);
      deeds' := deeds + [d];
      if blocked {
        return;
      }
    }
    c.readPacket := c.readNext;
  }

  lemma InStepWorld(k: Call, deeds: seq<Deed>, world: World, view: seq<Pkt>, got: seq<byte>, due: nat)
    requires InStep(k, deeds, world, view, got, due)
    ensures world == After(k.world, deeds)
  {
  }

  /** The call is interrupted in the refund of the packet read last, and its place is kept. */
  ghost predicate InRefund(s: Session, c: Channel, k: Call, deeds: seq<Deed>)
    reads s.packets`nodes, c`readNext, c`readPacket, c`readState
  {
    c.readState == Jump1 && Paused(s, c, k.r) && Stopped(k.world, deeds, Amount(c.readPacket.data, k.r.stream))
  }

  /** The call goes on with an interrupted refund. */
  ghost predicate Resumes(s: Session, c: Channel, k: Call)
    reads s.packets`nodes, c`readNext, c`readPacket
  {
    Paused(s, c, k.r) && k.repeats == Some(Amount(c.readPacket.data, k.r.stream))
  }

  /** The loop is entered where the refund is repeated (lines 1519-1529, 1631-1645). */
  method Resume(s: Session, c: Channel, streamId: u32, buf: array<byte>, ghost k: Call)
    returns (blocked: bool, ghost at: nat, ghost deeds': seq<Deed>)
    requires s.Valid() && c in s.channels && k.r == Consumer(c.localId, streamId, c.ignoreMode)
    requires c.readBytesRead <= buf.Length && k.repeats.Some? && Resumes(s, c, k)
    requires InStep(k, [], s.World(), s.packets.view, buf[..c.readBytesRead], 0) && Smooth(k.world, [])
    modifies s`sends, s`sent, c`remoteWindow, c`adjustQueue, c`adjustState, c`adjustAdjust
    modifies c`readState, c`readPacket
    ensures s.Valid() && deeds' != [] && InStep(k, deeds', s.World(), s.packets.view, buf[..c.readBytesRead], 0)
    ensures if blocked then InRefund(s, c, k, deeds')
            else c.readState == Created && Smooth(k.world, deeds') && Cursor(s, k.r, c.readPacket, at, false)
  {
    hide InStep, NoneMatches, Matches, List.Valid, Cursor, Held, Smooth, InRefund, After, Done;
    hide Session.IdsOk, Session.AllSteady, Session.InputOk, Session.World, IsTakenForAgain;
    at := HeldCursor(s, k.r, c.readNext);
    ghost var d := Repeat(c.localId, Amount(c.readPacket.data, streamId));
    InStepWorld(k, [], s.World(), s.packets.view, buf[..c.readBytesRead], 0);
    InStepRepeats(k, s.World(), s.packets.view, buf[..c.readBytesRead]);
    SmoothMore(k.world, [], d);
    assert [] + [d] == [d];
    blocked := RefundPacket(s, c, streamId, true);
    deeds' := [d];
    if blocked {
      InRefundAgain(s, c, k, deeds');
      return;
    }
    c.readPacket := c.readNext;
  }

  /** The inner loop (lines 1558-1648), entered at its middle when a refund is being repeated: what
      is read are the next bytes of the queue, whatever it leaves is the rest of it. */
  method Scan(s: Session, c: Channel, streamId: u32, buf: array<byte>, buflen: nat, resume: bool,
              ghost k: Call, ghost deeds: seq<Deed>) returns (blocked: bool, ghost deeds': seq<Deed>)
    requires s.Valid() && c in s.channels && k.r == Consumer(c.localId, streamId, c.ignoreMode)
    requires c.readBytesRead <= buflen <= buf.Length
    requires resume ==> k.repeats.Some?
    requires if resume then Resumes(s, c, k) && deeds == []
             else c.readPacket == s.packets.head && c.readState == Created && (deeds == [] ==> k.repeats == None)
    requires InStep(k, deeds, s.World(), s.packets.view, buf[..c.readBytesRead], 0) && Smooth(k.world, deeds)
    modifies s`sends, s`sent, s.packets, s.packets.Objects(), buf
    modifies c`remoteWindow, c`adjustQueue, c`adjustState, c`adjustAdjust
    modifies c`readState, c`readPacket, c`readNext, c`readBytesRead, c`readBlock
    ensures s.Valid() && c.readBytesRead <= buflen && deeds <= deeds' && (resume ==> deeds' != [])
    ensures InStep(k, deeds', s.World(), s.packets.view, buf[..c.readBytesRead], 0)
    ensures s.packets.Objects() <= old(s.packets.Objects()) && ReadBy(k.r, old(s.packets.Rolled()), s.packets.Rolled())
    ensures if blocked then InRefund(s, c, k, deeds') else c.readState == Created && c.readBlock && Smooth(k.world, deeds')
    ensures !blocked && !resume && c.readBytesRead < buflen ==> NoneMatches(k.r, s.packets.view)
  {
    hide InStep, NoneMatches, Matches, List.Valid, Cursor, Held, ReadBy, Since, Smooth, InRefund, After, Done;
    hide Session.IdsOk, Session.AllSteady, Session.InputOk, Session.World, IsTakenForAgain;
    ghost var at: nat := 0;
    blocked, deeds' := false, deeds;
    NothingYet(k.r, s.packets.Rolled());
    if resume {
      blocked, at, deeds' := Resume(s, c, streamId, buf, k);
      if blocked {
        return;
      }
    } else {
      CursorStart(s, k.r);
    }
    while c.readPacket != null && c.readBytesRead < buflen
      invariant s.Valid() && c.readBytesRead <= buflen && c.readState == Created && deeds <= deeds'
      invariant deeds' == [] ==> k.repeats == None && !resume
      invariant InStep(k, deeds', s.World(), s.packets.view, buf[..c.readBytesRead], 0) && Smooth(k.world, deeds')
      invariant s.packets.Objects() <= old(s.packets.Objects())
      invariant ReadBy(k.r, old(s.packets.Rolled()), s.packets.Rolled())
      invariant c.readBytesRead < buflen ==> Cursor(s, k.r, c.readPacket, at, !resume)
      decreases |s.packets.nodes| - at
    {
      ghost var roll := s.packets.Rolled();
      blocked, at, deeds' := Turn(s, c, streamId, buf, buflen, at, !resume, k, deeds');
      ReadByThen(k.r, old(s.packets.Rolled()), roll, s.packets.Rolled());
      if blocked {
        return;
      }
    }
    if c.readBytesRead < buflen {
      CursorEnds(s, k.r, at, !resume);
    }
    c.readBlock := true;
  }

  lemma InRefundAgain(s: Session, c: Channel, k: Call, deeds: seq<Deed>)
    requires c.readState == Jump1 && Paused(s, c, k.r) && Stopped(k.world, deeds, Amount(c.readPacket.data, k.r.stream))
    ensures InRefund(s, c, k, deeds)
  {
  }

  lemma NothingYet(r: Consumer, roll: Roll)
    ensures ReadBy(r, roll, roll)
  {
    SinceNow(roll);
    OnlyAdded(r, roll, roll);
  }

  lemma CursorEnds(s: Session, r: Consumer, at: nat, whole: bool)
    requires Cursor(s, r, null, at, whole)
    ensures whole ==> NoneMatches(r, s.packets.view)
  {
  }

  lemma CursorStart(s: Session, r: Consumer)
    requires s.packets.Valid()
    ensures Cursor(s, r, s.packets.head, 0, true)
  {
  }

  lemma ConnectedAs(s: Session)
    ensures s.World().connected == s.connected
  {
  }

  /** A packet is read in the course of a call. */
  method TakeOne(s: Session, buf: array<byte>, n: nat, ghost k: Call, ghost deeds: seq<Deed>) returns (rc: ReadCode)
    requires s.Valid() && n <= buf.Length
    requires InStep(k, deeds, s.World(), s.packets.view, buf[..n], 0) && Smooth(k.world, deeds)
    requires deeds == [] ==> k.repeats == None
    modifies s`sends, s`sent, s`packAddState, s`packAddChannel, s`connected, s`incoming, s`pending
    modifies s.packets, s.packets.Objects()
    modifies s.channels`remoteWindow, s.channels`adjustQueue, s.channels`adjustState, s.channels`adjustAdjust,
             s.channels`remoteEof, s.channels`remoteClose, s.channels`localWindow, s.channels`exitStatus
    ensures s.Valid() && Left(s.World()) <= Left(old(s.World()))
    ensures (rc.Type? && old(s.connected) ==> Left(s.World()) < Left(old(s.World())))
    ensures rc != Fail ==> s.connected == old(s.connected)
    ensures InStep(k, deeds + [Listen], s.World(), s.packets.view, buf[..n], 0) && Smooth(k.world, deeds + [Listen])
    ensures Answered(k.world, deeds + [Listen], rc)
    ensures fresh(s.packets.Objects() - old(s.packets.Objects()))
    ensures ReadBy(k.r, old(s.packets.Rolled()), s.packets.Rolled())
    ensures !rc.Type? ==> s.packets.view == old(s.packets.view)
  {
    hide InStep, Session.Valid, Session.World, Listened, Left, ReadLinks, ReadAnswer, Since, ReadBy, Smooth, Answered;
    hide After;
    ghost var w, roll := s.World(), s.packets.Rolled();
    InStepWorld(k, deeds, w, s.packets.view, buf[..n], 0);
    InStepListens(k, deeds, w, s.packets.view, buf[..n]);
    SmoothMore(k.world, deeds, Listen);
    ListenedLess(w);
    ConnectedAs(s);
    if !ReadAnswer(w).Type? {
      LinksNothing(w);
    }
    rc := s.PacketRead();
    ConnectedAs(s);
    OnlyAdded(k.r, roll, s.packets.Rolled());
  }

  /** The socket has nothing more, or what was read last says to stop. */
  ghost predicate Dry(w: World, deeds: seq<Deed>) {
    || NextIn(After(w, deeds).incoming) == NoData || Answered(w, deeds, Fail) || Answered(w, deeds, Blocked)
    || Answered(w, deeds, Type(0))
  }

  /** The first thing a new call does is to take in what has come. */
  ghost predicate Drained(w: World, deeds: seq<Deed>) {
    exists n :: 0 <= n <= |deeds| && (forall i | 0 <= i < n :: deeds[i] == Listen) && Dry(w, deeds[..n])
  }

  lemma DrainedNow(s: Session, w: World, deeds: seq<Deed>)
    requires s.World() == After(w, deeds) && forall d <- deeds :: d == Listen
    requires || NextIn(s.incoming) == NoData || Answered(w, deeds, Fail) || Answered(w, deeds, Blocked)
             || Answered(w, deeds, Type(0))
    ensures Drained(w, deeds)
  {
    hide After, Answered, Session.Views;
    var n := |deeds|;
    assert deeds[..n] == deeds && Dry(w, deeds[..n]);
    forall i | 0 <= i < n
      ensures deeds[i] == Listen
    {
      assert deeds[i] in deeds;
    }
  }

  lemma DrainedStill(w: World, deeds: seq<Deed>, deeds': seq<Deed>)
    requires Drained(w, deeds) && deeds <= deeds'
    ensures Drained(w, deeds')
  {
    hide Dry;
    var n :| 0 <= n <= |deeds| && (forall i | 0 <= i < n :: deeds[i] == Listen) && Dry(w, deeds[..n]);
    assert deeds'[..n] == deeds[..n];
    assert forall i | 0 <= i < n :: deeds'[i] == deeds[i];
  }

  /** Lines 1500-1512: packets are taken in until the socket has nothing more, or one is not for the
      time being. */
  method Drain(s: Session, buf: array<byte>, ghost k: Call) returns (ok: bool, ghost deeds: seq<Deed>)
    requires s.Valid() && s.connected && k.repeats == None
    requires InStep(k, [], s.World(), s.packets.view, buf[..0], 0)
    modifies s`sends, s`sent, s`packAddState, s`packAddChannel, s`connected, s`incoming, s`pending
    modifies s.packets, s.packets.Objects()
    modifies s.channels`remoteWindow, s.channels`adjustQueue, s.channels`adjustState, s.channels`adjustAdjust,
             s.channels`remoteEof, s.channels`remoteClose, s.channels`localWindow, s.channels`exitStatus
    ensures s.Valid() && (ok ==> s.connected)
    ensures InStep(k, deeds, s.World(), s.packets.view, buf[..0], 0) && Smooth(k.world, deeds)
    ensures fresh(s.packets.Objects() - old(s.packets.Objects()))
    ensures ReadBy(k.r, old(s.packets.Rolled()), s.packets.Rolled())
    ensures !ok ==> Answered(k.world, deeds, Fail)
    ensures ok ==> NextIn(s.incoming) == NoData || Answered(k.world, deeds, Blocked) || Answered(k.world, deeds, Type(0))
    ensures forall d <- deeds :: d == Listen
  {
    hide InStep, Session.Valid, Session.World, ReadBy, Smooth, Answered, Left;
    deeds, ok := [], true;
    NothingYet(k.r, s.packets.Rolled());
    NothingDone(k.world);
    var more := true;
    while more
      invariant s.Valid() && (ok ==> s.connected) && (more ==> ok)
      invariant InStep(k, deeds, s.World(), s.packets.view, buf[..0], 0) && Smooth(k.world, deeds)
      invariant fresh(s.packets.Objects() - old(s.packets.Objects()))
      invariant ReadBy(k.r, old(s.packets.Rolled()), s.packets.Rolled())
      invariant !ok ==> Answered(k.world, deeds, Fail)
      invariant !more && ok ==>
                  NextIn(s.incoming) == NoData || Answered(k.world, deeds, Blocked) || Answered(k.world, deeds, Type(0))
      invariant forall d <- deeds :: d == Listen
      decreases more, Left(s.World())
    {
      more := false;
      if s.incoming != [] && s.incoming[0] != NoData {
        ghost var roll := s.packets.Rolled();
        var rc := TakeOne(s, buf, 0, k, deeds);
        ReadByThen(k.r, old(s.packets.Rolled()), roll, s.packets.Rolled());
        deeds := deeds + [Listen];
        ok := rc != Fail;
        more := rc.Type? && rc.t > 0;
      }
    }
  }

  lemma NothingDone(w: World)
    ensures Smooth(w, [])
  {
  }

  /** How the outer loop ends: at its condition, in an interrupted refund, or for want of packets. */
  datatype LapsEnd = Finished | Interrupted | NoMore(failed: bool)

  /** What the end of the laps tells. */
  ghost predicate Concludes(s: Session, c: Channel, buflen: nat, k: Call, deeds: seq<Deed>, end: LapsEnd)
    reads s.packets`nodes, c
  {
    match end
    case Finished => Smooth(k.world, deeds) && (c.readBytesRead > 0 || c.remoteClose || buflen == 0)
    case Interrupted => InRefund(s, c, k, deeds)
    case NoMore(failed) =>
      Smooth(k.world, deeds) && c.readBytesRead == 0 && Answered(k.world, deeds, if failed then Fail else Blocked)
  }

  /** One turn of the outer loop: from the second on another packet is asked for (lines 1532-1556). */
  method Round(s: Session, c: Channel, streamId: u32, buf: array<byte>, buflen: nat, resume: bool,
               ghost k: Call, ghost deeds: seq<Deed>) returns (end: Option<LapsEnd>, ghost deeds': seq<Deed>)
    requires s.Valid() && s.connected && c in s.channels && k.r == Consumer(c.localId, streamId, c.ignoreMode)
    requires c.readBytesRead <= buflen <= buf.Length
    requires resume ==> k.repeats.Some?
    requires if resume then Resumes(s, c, k) && deeds == []
             else && c.readState == Created && (!c.readBlock ==> c.readPacket == s.packets.head)
                  && (deeds == [] ==> k.repeats == None)
    requires k.repeats == None && c.readBlock && c.readBytesRead < buflen ==> NoneMatches(k.r, s.packets.view)
    requires InStep(k, deeds, s.World(), s.packets.view, buf[..c.readBytesRead], 0) && Smooth(k.world, deeds)
    modifies s`sends, s`sent, s`packAddState, s`packAddChannel, s`connected, s`incoming, s`pending
    modifies s.packets, s.packets.Objects(), buf
    modifies s.channels`remoteWindow, s.channels`adjustQueue, s.channels`adjustState, s.channels`adjustAdjust,
             s.channels`remoteEof, s.channels`remoteClose, s.channels`localWindow, s.channels`exitStatus
    modifies c`readState, c`readPacket, c`readNext, c`readBytesRead, c`readBlock
    ensures s.Valid() && c.readBytesRead <= buflen && deeds <= deeds' && (resume ==> deeds' != [])
    ensures InStep(k, deeds', s.World(), s.packets.view, buf[..c.readBytesRead], 0)
    ensures fresh(s.packets.Objects() - old(s.packets.Objects()))
    ensures ReadBy(k.r, old(s.packets.Rolled()), s.packets.Rolled())
    ensures end.Some? ==> Concludes(s, c, buflen, k, deeds', end.value)
    ensures end == None ==> s.connected && c.readState == Created && c.readBlock && Smooth(k.world, deeds')
    ensures end == None ==> Left(s.World()) <= Left(old(s.World()))
    ensures end == None && !resume && old(c.readBlock) ==> Left(s.World()) < Left(old(s.World()))
    ensures end != Some(Interrupted) && k.repeats == None && c.readBytesRead < buflen ==> NoneMatches(k.r, s.packets.view)
  {
    hide InStep, NoneMatches, Session.Valid, Session.World, Resumes, ReadBy, Smooth, Answered, InRefund, Left;
    deeds' := deeds;
    NothingYet(k.r, s.packets.Rolled());
    if !resume && c.readBlock {
      if c.readBytesRead >= buflen {
        return Some(Finished), deeds';
      }
      ghost var view := s.packets.view;
      var rc := TakeOne(s, buf, c.readBytesRead, k, deeds);
      deeds' := deeds + [Listen];
      if !rc.Type? {
        return Some(if c.readBytesRead > 0 then Finished else NoMore(rc == Fail)), deeds';
      }
      c.readPacket := s.packets.head;
    }
    ghost var roll := s.packets.Rolled();
    LeftOnly(s, c);
    var blocked;
    blocked, deeds' := Scan(s, c, streamId, buf, buflen, resume, k, deeds');
    LeftOnly(s, c);
    ReadByThen(k.r, old(s.packets.Rolled()), roll, s.packets.Rolled());
    end := if blocked then Some(Interrupted) else if c.readBytesRead != 0 || c.remoteClose then Some(Finished) else None;
  }

  lemma LeftOnly(s: Session, c: Channel)
    ensures Left(s.World()) == |s.incoming| + if s.packAddState == Jump1 then 1 else 0
  {
  }

  /** Lines 1531-1650. */
  method Laps(s: Session, c: Channel, streamId: u32, buf: array<byte>, buflen: nat, entry: bool,
              ghost k: Call, ghost deeds: seq<Deed>) returns (end: LapsEnd, ghost deeds': seq<Deed>)
    requires s.Valid() && s.connected && c in s.channels && k.r == Consumer(c.localId, streamId, c.ignoreMode)
    requires c.readBytesRead <= buflen <= buf.Length
    requires entry <==> k.repeats.Some?
    requires if entry then Resumes(s, c, k) && deeds == []
             else c.readPacket == s.packets.head && c.readState == Created && !c.readBlock && k.repeats == None
    requires InStep(k, deeds, s.World(), s.packets.view, buf[..c.readBytesRead], 0) && Smooth(k.world, deeds)
    modifies s`sends, s`sent, s`packAddState, s`packAddChannel, s`connected, s`incoming, s`pending
    modifies s.packets, s.packets.Objects(), buf
    modifies s.channels`remoteWindow, s.channels`adjustQueue, s.channels`adjustState, s.channels`adjustAdjust,
             s.channels`remoteEof, s.channels`remoteClose, s.channels`localWindow, s.channels`exitStatus
    modifies c`readState, c`readPacket, c`readNext, c`readBytesRead, c`readBlock
    ensures s.Valid() && c.readBytesRead <= buflen && deeds <= deeds' && (entry ==> deeds' != [])
    ensures InStep(k, deeds', s.World(), s.packets.view, buf[..c.readBytesRead], 0)
    ensures fresh(s.packets.Objects() - old(s.packets.Objects()))
    ensures ReadBy(k.r, old(s.packets.Rolled()), s.packets.Rolled())
    ensures Concludes(s, c, buflen, k, deeds', end)
    ensures !end.Interrupted? && !entry && c.readBytesRead < buflen ==> NoneMatches(k.r, s.packets.view)
  {
    hide InStep, NoneMatches, Session.Valid, Session.World, Resumes, Concludes, ReadBy, Smooth, Left;
    var resume := entry;
    ghost var first := true;
    deeds' := deeds;
    NothingYet(k.r, s.packets.Rolled());
    while true
      invariant s.Valid() && s.connected && c.readBytesRead <= buflen && deeds <= deeds'
      invariant if resume then Resumes(s, c, k) && deeds' == []
                else && c.readState == Created && (!c.readBlock ==> c.readPacket == s.packets.head)
                     && (deeds' == [] ==> k.repeats == None)
      invariant InStep(k, deeds', s.World(), s.packets.view, buf[..c.readBytesRead], 0) && Smooth(k.world, deeds')
      invariant fresh(s.packets.Objects() - old(s.packets.Objects()))
      invariant ReadBy(k.r, old(s.packets.Rolled()), s.packets.Rolled())
      invariant !entry && c.readBlock && c.readBytesRead < buflen ==> NoneMatches(k.r, s.packets.view)
      invariant first || (!resume && c.readBlock)
      invariant resume ==> entry
      decreases Left(s.World()), first
    {
      ghost var roll := s.packets.Rolled();
      var over;
      over, deeds' := Round(s, c, streamId, buf, buflen, resume, k, deeds');
      ReadByThen(k.r, old(s.packets.Rolled()), roll, s.packets.Rolled());
      if over.Some? {
        return over.value, deeds';
      }
      resume, first := false, false;
    }
  }

  /** Lines 1493-1517: a new call takes in what has come; the scan starts at the first packet. */
  method Begin(s: Session, c: Channel, buf: array<byte>, ghost k: Call) returns (ok: bool, ghost deeds: seq<Deed>)
    requires s.Valid() && s.connected && c in s.channels && c.readState == Idle && k.repeats == None
    requires k.world == s.World() && k.view == s.packets.view && k.held == []
    modifies s`sends, s`sent, s`packAddState, s`packAddChannel, s`connected, s`incoming, s`pending
    modifies s.packets, s.packets.Objects()
    modifies s.channels`remoteWindow, s.channels`adjustQueue, s.channels`adjustState, s.channels`adjustAdjust,
             s.channels`remoteEof, s.channels`remoteClose, s.channels`localWindow, s.channels`exitStatus
    modifies c`readState, c`readPacket, c`readBytesRead
    ensures s.Valid() && InStep(k, deeds, s.World(), s.packets.view, buf[..0], 0) && Smooth(k.world, deeds)
    ensures fresh(s.packets.Objects() - old(s.packets.Objects()))
    ensures ReadBy(k.r, old(s.packets.Rolled()), s.packets.Rolled())
    ensures Drained(k.world, deeds)
    ensures ok ==> s.connected && c.readState == Created && c.readPacket == s.packets.head && c.readBytesRead == 0
    ensures !ok ==> c.readState == Idle && Answered(k.world, deeds, Fail)
  {
    hide InStep, Session.Valid, Session.World, ReadBy, Smooth, Answered, Drained, After, NextIn;
    InStepStarts(k);
    assert buf[..0] == [];
    ok, deeds := Drain(s, buf, k);
    InStepWorld(k, deeds, s.World(), s.packets.view, buf[..0], 0);
    DrainedNow(s, k.world, deeds);
    if ok {
      c.readBytesRead := 0;
      c.readPacket := s.packets.head;
      c.readState := Created;
    }
  }

  predicate Carries(id: u32, data: seq<byte>) {
    data != [] && (data[0] == CHANNEL_DATA || data[0] == CHANNEL_EXTENDED_DATA) && IdOf(data) == id
  }

  /** The peer has ended the channel and none of its data is left in the brigade. */
  ghost predicate AtEof(s: Session, c: Channel)
    reads s.packets`view, c`remoteEof
  {
    c.remoteEof && forall p <- s.packets.view :: !Carries(c.localId, p.data)
  }

  /** `libssh2_channel_eof`. */
  method Eof(s: Session, c: Channel) returns (eof: bool)
    requires s.Valid()
    ensures eof <==> AtEof(s, c)
    ensures eof ==> c.remoteEof && forall p <- s.packets.view | |p.data| >= 5 && p.data[0] in {94, 95} ::
                                     U32Of(p.data[1..5]) != c.localId
    ensures !eof ==> !c.remoteEof || exists p <- s.packets.view :: p.data != [] && p.data[0] in {94, 95} &&
                                       (|p.data| >= 5 ==> U32Of(p.data[1..5]) == c.localId)
  {
    ghost var nodes, view := s.packets.nodes, s.packets.view;
    ghost var at := 0;
    var packet := s.packets.head;
    while packet != null
      invariant at <= |nodes| && packet == s.packets.At(at)
      invariant forall i | 0 <= i < at :: !Carries(c.localId, view[i].data)
      decreases |nodes| - at
    {
      assert view[at].data == packet.data;
      if (packet.data[0] == CHANNEL_DATA || packet.data[0] == CHANNEL_EXTENDED_DATA) && c.localId == IdOf(packet.data) {
        return false;
      }
      packet := packet.next;
      at := at + 1;
    }
    return c.remoteEof;
  }

  /** The bytes that the answer says are in the buffer, or that an interrupted call has put there. */
  ghost function Got(res: Code, c: Channel, buf: array<byte>): seq<byte>
    requires res.Ok? ==> res.n <= buf.Length
    requires !res.Ok? && c.readState == Jump1 ==> c.readBytesRead <= buf.Length
    reads c`readState, c`readBytesRead, buf
  {
    if res.Ok? then buf[..res.n] else if c.readState == Jump1 then buf[..c.readBytesRead] else []
  }

  /** Why the call answers as it does. */
  ghost predicate Explained(s: Session, c: Channel, buflen: nat, k: Call, deeds: seq<Deed>, res: Code)
    reads s.packets`nodes, s.packets`view, s`socketBlock, c
  {
    if c.readState == Jump1 then res == Eagain && InRefund(s, c, k, deeds)
    else
      && c.readState == Idle && Smooth(k.world, deeds)
      && match res
         case Error => Answered(k.world, deeds, Fail)
         case Eagain =>
           || Answered(k.world, deeds, Blocked)
           || ((c.remoteClose || buflen == 0) && !s.socketBlock && !AtEof(s, c))
         case Ok(n) => n == 0 ==> (buflen == 0 || c.remoteClose) && (s.socketBlock || AtEof(s, c))
  }

  /** Lines 1652-1670: what is answered when the laps are over. */
  method Finish(s: Session, c: Channel, streamId: u32, buf: array<byte>, buflen: nat, entry: bool,
                ghost k: Call, ghost deeds: seq<Deed>) returns (res: Code, ghost deeds': seq<Deed>)
    requires s.Valid() && s.connected && c in s.channels && k.r == Consumer(c.localId, streamId, c.ignoreMode)
    requires c.readBytesRead <= buflen <= buf.Length
    requires entry <==> k.repeats.Some?
    requires if entry then Resumes(s, c, k) && deeds == []
             else c.readPacket == s.packets.head && c.readState == Created && !c.readBlock && k.repeats == None
    requires InStep(k, deeds, s.World(), s.packets.view, buf[..c.readBytesRead], 0) && Smooth(k.world, deeds)
    modifies s`sends, s`sent, s`packAddState, s`packAddChannel, s`connected, s`incoming, s`pending
    modifies s.packets, s.packets.Objects(), buf
    modifies s.channels`remoteWindow, s.channels`adjustQueue, s.channels`adjustState, s.channels`adjustAdjust,
             s.channels`remoteEof, s.channels`remoteClose, s.channels`localWindow, s.channels`exitStatus
    modifies c`readState, c`readPacket, c`readNext, c`readBytesRead, c`readBlock
    ensures s.Valid() && (res.Ok? ==> res.n <= buflen) && (c.readState == Jump1 ==> c.readBytesRead <= buflen)
    ensures deeds <= deeds' && (entry ==> deeds' != [])
    ensures InStep(k, deeds', s.World(), s.packets.view, Got(res, c, buf), 0) && Explained(s, c, buflen, k, deeds', res)
    ensures fresh(s.packets.Objects() - old(s.packets.Objects()))
    ensures ReadBy(k.r, old(s.packets.Rolled()), s.packets.Rolled())
    ensures !entry && c.readState == Idle && |Got(res, c, buf)| < buflen ==> NoneMatches(k.r, s.packets.view)
  {
    hide InStep, NoneMatches, Session.Valid, Session.World, Resumes, AtEof, InRefund, ReadBy, Smooth, Answered;
    var end;
    end, deeds' := Laps(s, c, streamId, buf, buflen, entry, k, deeds);
    InRefundMeans(s, c, k, deeds');
    if end.Interrupted? {
      return Eagain, deeds';
    }
    c.readState := Idle;
    assert buf[..0] == [];
    if end.NoMore? {
      return if end.failed then Code.Error else Code.Eagain, deeds';
    }
    if c.readBytesRead == 0 {
      var eof := Eof(s, c);
      if !s.socketBlock && !eof {
        return Eagain, deeds';
      }
    }
    return Ok(c.readBytesRead), deeds';
  }

  lemma InRefundMeans(s: Session, c: Channel, k: Call, deeds: seq<Deed>)
    ensures InRefund(s, c, k, deeds) ==> c.readState == Jump1
  {
  }

  /** `libssh2_channel_read_ex`. What it has put in the buffer when it answers is exactly what comes
      next in the queue of its stream, where what comes in meanwhile is what the messages it read from
      the socket bring; a call that must be repeated, on the same buffer, goes on where it was. Session,
      channels and windows are then what its deeds make of them: packets read, and a refund for each
      packet that is gone, repeated when it was interrupted. */
  method ReadEx(s: Session, c: Channel, streamId: u32, buf: array<byte>, buflen: nat)
    returns (res: Code, ghost k: Call, ghost deeds: seq<Deed>)
    requires s.Valid() && s.connected && c in s.channels && buflen <= buf.Length
    requires c.readState == Idle || CanResume(s, c, streamId, buflen)
    modifies s`sends, s`sent, s`packAddState, s`packAddChannel, s`connected, s`incoming, s`pending
    modifies s.packets, s.packets.Objects(), buf
    modifies s.channels`remoteWindow, s.channels`adjustQueue, s.channels`adjustState, s.channels`adjustAdjust,
             s.channels`remoteEof, s.channels`remoteClose, s.channels`localWindow, s.channels`exitStatus
    modifies c`readState, c`readPacket, c`readNext, c`readBytesRead, c`readBlock
    ensures k == old(CallAt(s, c, streamId, buf))
    ensures s.Valid() && (res.Ok? ==> res.n <= buflen) && (c.readState != Idle ==> CanResume(s, c, streamId, buflen))
    ensures if k.repeats.Some? then deeds != [] else Drained(k.world, deeds)
    ensures InStep(k, deeds, s.World(), s.packets.view, Got(res, c, buf), 0) && Explained(s, c, buflen, k, deeds, res)
    ensures fresh(s.packets.Objects() - old(s.packets.Objects()))
    ensures ReadBy(k.r, old(s.packets.Rolled()), s.packets.Rolled())
    ensures k.repeats == None && c.readState == Idle && res != Error && |Got(res, c, buf)| < buflen ==>
              NoneMatches(k.r, s.packets.view)
  {
    hide InStep, NoneMatches, Session.Valid, Session.World, AtEof, ReadBy, Smooth, Stopped, Answered, Refundable, Held, Drained;
    var entry := c.readState == Jump1;
    k := CallAt(s, c, streamId, buf);
    ghost var roll0 := s.packets.Rolled();
    deeds := [];
    if !entry {
      var ok;
      ok, deeds := Begin(s, c, buf, k);
      if !ok {
        assert buf[..0] == [];
        return Error, k, deeds;
      }
      c.readBlock := false;
    } else {
      InStepStarts(k);
      NothingDone(k.world);
      NothingYet(k.r, roll0);
    }
    ghost var roll, first := s.packets.Rolled(), deeds;
    res, deeds := Finish(s, c, streamId, buf, buflen, entry, k, deeds);
    if !entry {
      DrainedStill(k.world, first, deeds);
    }
    ReadByThen(k.r, roll0, roll, s.packets.Rolled());
  }

  /** A read interrupted before, that may be repeated. */
  ghost predicate CanResume(s: Session, c: Channel, streamId: u32, buflen: nat)
    reads s.packets`nodes, c
  {
    c.readState == Jump1 && Paused(s, c, Consumer(c.localId, streamId, c.ignoreMode)) && c.readBytesRead <= buflen
  }

  /** A call that starts now. */
  ghost function CallAt(s: Session, c: Channel, streamId: u32, buf: array<byte>): Call
    requires c.readState == Jump1 ==> c.readPacket != null && Refundable(c.readPacket.data, streamId)
    requires c.readState == Jump1 ==> c.readBytesRead <= buf.Length
    reads s, s.channels, s.packets`view, c, buf
  {
    var r := Consumer(c.localId, streamId, c.ignoreMode);
    if c.readState == Jump1
    then Call(r, Some(Amount(c.readPacket.data, streamId)), s.World(), s.packets.view, buf[..c.readBytesRead])
    else Call(r, None, s.World(), s.packets.view, [])
  }

  /** A packet of standard data for one of the first 256 channels. */
  function Packet(id: byte, payload: seq<byte>): seq<byte> {
    [CHANNEL_DATA, 0, 0, 0, id, 0, 0, 0, 0] + payload
  }

  lemma PacketMatches(id: byte, payload: seq<byte>)
    ensures Matches(Consumer(id, 0, Normal), Packet(id, payload)) && |Packet(id, payload)| == 9 + |payload|
  {
    assert Packet(id, payload)[1..5] == [0, 0, 0, id];
  }

  /** Two channels, and a packet for each in the brigade. */
  method TwoPackets(p: seq<byte>, q: seq<byte>) returns (s: Session, a: Channel, b: Channel)
    requires 9 <= |p| < TWO32 && 9 <= |q| < TWO32
    ensures s.Valid() && s.channels == [a, b] && a.localId == 0 && b.localId == 1 && s.sends == [Again]
    ensures a.Flow() == b.Flow() == State(0x2_0000, 0, 0x8000, Normal, None) && a.Steady() && b.Steady()
    ensures a.ignoreMode == b.ignoreMode == Normal
    ensures |s.packets.nodes| == 2 && s.packets.nodes[0] != s.packets.nodes[1]
    ensures s.packets.nodes[0].data == p && s.packets.nodes[1].data == q
    ensures fresh(s) && fresh(a) && fresh(b) && fresh(s.packets) && fresh(s.packets.Objects())
  {
    hide List.Valid, Since, Channel.Flow, Channel.Steady;
    s := new Session([], [Again], false);
    a := new Channel(0, 0, 0x2_0000, 0x8000, 0x2_0000, 0x8000);
    b := new Channel(1, 1, 0x2_0000, 0x8000, 0x2_0000, 0x8000);
    s.channels, s.nextChannel := [a, b], 2;
    LinkBoth(s, p, q);
  }

  method LinkBoth(s: Session, p: seq<byte>, q: seq<byte>)
    requires s.packets.Valid() && s.packets.nodes == [] && 9 <= |p| < TWO32 && 9 <= |q| < TWO32
    modifies s.packets
    ensures s.packets.Valid() && fresh(s.packets.Objects())
    ensures |s.packets.nodes| == 2 && s.packets.nodes[0] != s.packets.nodes[1]
    ensures s.packets.nodes[0].data == p && s.packets.nodes[1].data == q
  {
    hide List.Valid, Since;
    s.packets.Ends();
    s.Link(p, 9);
    s.Link(q, 9);
    s.packets.Ends();
    s.packets.Entry(0);
    s.packets.Entry(1);
  }

  /** A read takes the first packet, which is its own and fits into the buffer. */
  method TakeFirst(s: Session, c: Channel, buf: array<byte>) returns (blocked: bool)
    requires s.Valid() && c in s.channels && s.packets.nodes != [] && c.ignoreMode == Normal
    requires var data := s.packets.nodes[0].data;
             Matches(Consumer(c.localId, 0, Normal), data) && 9 <= |data| <= buf.Length && |data| < TWO32
    modifies s`sends, s`sent, s.packets, s.packets.Objects(), buf
    modifies c`remoteWindow, c`adjustQueue, c`adjustState, c`adjustAdjust
    modifies c`readState, c`readPacket, c`readNext, c`readBytesRead
    ensures s.Valid() && s.packets.nodes == Without(old(s.packets.nodes), 0)
    ensures c.readNext == old(s.packets.At(1)) && s.packets.Objects() <= old(s.packets.Objects())
    ensures blocked ==> c.readState == Jump1 && Paused(s, c, Consumer(c.localId, 0, Normal))
    ensures var a := |old(s.packets.nodes)[0].data| - 9;
            && blocked == IsTakenForAgain(old(s.World()), c.localId, a)
            && s.World() == Done(old(s.World()), Refund(c.localId, a))
    ensures c.readPacket == if blocked then old(s.packets.nodes)[0] else null
  {
    hide Matches, List.Valid, Held, Without, Session.IdsOk, Session.AllSteady, Session.InputOk, Session.World;
    hide IsTakenForAgain;
    hide Done;
    CopyFirst(s, c, buf);
    blocked := RefundPacket(s, c, 0, false);
  }

  method CopyFirst(s: Session, c: Channel, buf: array<byte>)
    requires s.packets.Valid() && s.packets.nodes != [] && c.ignoreMode == Normal
    requires var data := s.packets.nodes[0].data;
             Matches(Consumer(c.localId, 0, Normal), data) && 9 <= |data| <= buf.Length && |data| < TWO32
    modifies s.packets, s.packets.Objects(), buf, c`readState, c`readPacket, c`readNext, c`readBytesRead
    ensures s.packets.Valid() && s.packets.nodes == Without(old(s.packets.nodes), 0)
    ensures c.readNext == old(s.packets.At(1)) && s.packets.Objects() <= old(s.packets.Objects())
    ensures c.readPacket == old(s.packets.nodes)[0] && Paused(s, c, Consumer(c.localId, 0, Normal))
  {
    hide InStep, NoneMatches, Matches, List.Valid, Cursor, Held, ReadBy, Since, Without, Session.World;
    s.packets.Ends();
    s.packets.Entry(0);
    MatchLength(Consumer(c.localId, 0, Normal), s.packets.nodes[0].data);
    ghost var k := Call(Consumer(c.localId, 0, Normal), None, s.World(), s.packets.view, []);
    c.readBytesRead, c.readState, c.readPacket := 0, Created, s.packets.head;
    assert buf[..0] == [];
    InStepStarts(k);
    CursorStart(s, k.r);
    var unlink;
    ghost var at;
    unlink, at := Visit(s, c, 0, buf, buf.Length, c.readPacket, 0, true, k, []);
    CursorHeld(s, k.r, c.readNext, at, true);
  }

  method OnePacket(p: seq<byte>) returns (s: Session, c: Channel)
    requires 9 <= |p| < TWO32
    ensures s.Valid() && s.channels == [c] && c.localId == c.remoteId == 0 && c.ignoreMode == Normal
    ensures s.sends == [Sent, Sent] && s.sent == [] && c.Flow() == State(EAGAIN_CODE - 1024, 0, 0x8000, Normal, None)
    ensures |s.packets.nodes| == 1 && s.packets.nodes[0].data == p
    ensures fresh(s) && fresh(c) && fresh(s.packets) && fresh(s.packets.Objects())
  {
    hide List.Valid, Since, Channel.Flow, Channel.Steady;
    s := new Session([], [Sent, Sent], false);
    c := new Channel(0, 0, 0x2_0000, 0x8000, EAGAIN_CODE - 1024, 0x8000);
    s.channels, s.nextChannel := [c], 1;
    s.packets.Ends();
    s.Link(p, 9);
    s.packets.Ends();
    s.packets.Entry(0);
  }

  /** A channel opened with a window of 2^32 - 37 bytes: 1024 of them are used, read, and given back to
      the peer. That read is taken for interrupted, and repeated it gives them once more. */
  method GivenTwice() returns (s: Session, c: Channel, blocked: bool)
    ensures blocked && s.sent == [AdjustMessage(0, 1024), AdjustMessage(0, 1024)] && c.remoteWindow == 987
  {
    hide Matches, List.Valid, Packet, IsTakenForAgain, Session.World, Held, AdjustMessage, Done, Without, Channel.Flow;
    hide Session.IdsOk, Session.AllSteady;
    var p := Packet(0, seq(1024, _ => 0));
    PacketMatches(0, seq(1024, _ => 0));
    s, c := OnePacket(p);
    ghost var w := s.World();
    OnlyChannel(s, c);
    PromisedTwice(w, 0, 0, 1024);
    var buf := new byte[2000];
    blocked := TakeFirst(s, c, buf);
    var again := RefundPacket(s, c, 0, true);
    OnlyChannel(s, c);
    TwoDone(w, Refund(0, 1024), Repeat(0, 1024));
  }

  /** The only channel in the session's value. */
  lemma OnlyChannel(s: Session, c: Channel)
    requires s.IdsOk() && s.channels == [c]
    ensures Find(s.World().views, c.localId) == Some(0) && s.World().views[0] == c.View()
    ensures c.View().flow == c.Flow() && c.Flow().window == c.remoteWindow && c.View().remoteId == c.remoteId
    ensures s.World().sends == s.sends && s.World().sent == s.sent
  {
    s.Finds(c);
  }

  /** A read of the first channel is interrupted while its packet is refunded. A read of the second
      one then takes out the packet at which the first is to go on: its place is lost, and repeated it
      would go on at a packet that is freed. */
  method PlaceLost() returns (s: Session, a: Channel, b: Channel, ghost held: bool)
    ensures s.channels == [a, b] && held && a.readState == Jump1
    ensures !Paused(s, a, Consumer(0, 0, Normal))
  {
    hide Matches, List.Valid, Packet, IsTakenForAgain, Session.World, Channel.Flow, Session.IdsOk, Session.AllSteady;
    var p, q := Packet(0, seq(1024, _ => 0)), Packet(1, [0]);
    PacketMatches(0, seq(1024, _ => 0));
    PacketMatches(1, [0]);
    s, a, b := TwoPackets(p, q);
    PutOff(s, a);
    var buf := new byte[2000];
    var blocked := TakeFirst(s, a, buf);
    held := Paused(s, a, Consumer(0, 0, Normal));
    blocked := TakeFirst(s, b, buf);
  }

  /** A refund of 1024 bytes is written at once, and here interrupted. */
  lemma PutOff(s: Session, c: Channel)
    requires s.IdsOk() && c in s.channels && c.Flow() == State(0x2_0000, 0, 0x8000, Normal, None) && s.sends == [Again]
    ensures IsTakenForAgain(s.World(), c.localId, 1024)
  {
    hide Session.IdsOk, Channel.Flow;
    s.Finds(c);
    IdKept(c);
  }
}
