/** `libssh2_channel_flush_ex`: throwing away what is buffered for some streams of a channel. */
module ChannelFlush {
  import opened Bytes
  import opened Brigade
  import opened Flow
  import opened ByteQueue
  import opened ChannelWorld
  import opened Channels

  const FLUSH_EXTENDED_DATA: int := -1
  const FLUSH_ALL: int := -2

  function Signed(v: u32): int {
    if v < 0x8000_0000 then v else v - TWO32
  }

  /** The tests of lines 1293-1306: a packet of this channel and of the streams meant. */
  predicate Selected(id: u32, streamId: int, data: seq<byte>) {
    && |data| >= 9 && (data[0] == CHANNEL_DATA || data[0] == CHANNEL_EXTENDED_DATA) && IdOf(data) == id
    && (|| streamId == FLUSH_ALL
        || (data[0] == CHANNEL_EXTENDED_DATA && (streamId == FLUSH_EXTENDED_DATA || streamId == Signed(U32Of(data[5..9]))))
        || (data[0] == CHANNEL_DATA && streamId == 0))
  }

  /** What a flush leaves. */
  function Unflushed(id: u32, streamId: int, ps: seq<Pkt>): (kept: seq<Pkt>)
    ensures |kept| <= |ps|
  {
    if ps == [] then [] else
    var before, p := Unflushed(id, streamId, ps[..|ps| - 1]), ps[|ps| - 1];
    if Selected(id, streamId, p.data) then before else before + [p]
  }

  /** The bytes a flush throws away, and the sum it credits to the peer for them. */
  function Thrown(id: u32, streamId: int, ps: seq<Pkt>): nat {
    if ps == [] then 0 else
    var p := ps[|ps| - 1];
    Thrown(id, streamId, ps[..|ps| - 1]) + if Selected(id, streamId, p.data) then |Unread(p)| else 0
  }

  /** Line 1316, with the wrap-around of an unsigned long. */
  function OwedFor(refund: u32, dataLen: nat): u32 {
    (refund + dataLen - 13) % TWO32
  }

  function Owed(id: u32, streamId: int, ps: seq<Pkt>): u32 {
    if ps == [] then 0 else
    var before, p := Owed(id, streamId, ps[..|ps| - 1]), ps[|ps| - 1];
    if Selected(id, streamId, p.data) then OwedFor(before, |p.data|) else before
  }

  /** Between the two moments none but the selected packets were taken out. */
  ghost predicate FlushedBy(id: u32, streamId: int, before: Roll, after: Roll) {
    Since(before, after) && forall n <- before.nodes :: n in after.nodes || Selected(id, streamId, n.data)
  }

  lemma FlushedByNow(id: u32, streamId: int, a: Roll)
    ensures FlushedBy(id, streamId, a, a)
  {
  }

  lemma FlushedByThen(id: u32, streamId: int, a: Roll, b: Roll, i: nat)
    requires FlushedBy(id, streamId, a, b) && i < |b.nodes| && Selected(id, streamId, b.nodes[i].data)
    ensures FlushedBy(id, streamId, a, Roll(Without(b.nodes, i), b.clock))
  {
    hide Selected;
    forall n <- b.nodes
      ensures n in Without(b.nodes, i) || Selected(id, streamId, n.data)
    {
      var k :| 0 <= k < |b.nodes| && b.nodes[k] == n;
      assert k != i ==> Without(b.nodes, i)[if k < i then k else k - 1] == n;
    }
  }

  /** A flush that does not select the packet at which an interrupted read goes on leaves its place. */
  lemma PlaceKeptByFlush(r: Consumer, next: Node?, id: u32, streamId: int, a: Roll, b: Roll)
    requires Aging(a) && Held(r, next, a.nodes) && FlushedBy(id, streamId, a, b)
    requires next != null ==> !Selected(id, streamId, next.data)
    ensures Held(r, next, b.nodes)
  {
    PlaceKeptIff(r, next, a, b);
  }

  /** The loop of lines 1289-1334. */
  method Sweep(s: Session, c: Channel, streamId: int)
    requires s.packets.Valid() && c.flushRefundBytes == 0 && c.flushFlushBytes == 0
    requires forall p <- s.packets.view :: Addressed(p.data)
    modifies s.packets, s.packets.Objects(), c`flushRefundBytes, c`flushFlushBytes
    ensures s.packets.Valid() && s.packets.Objects() <= old(s.packets.Objects())
    ensures FlushedBy(c.localId, streamId, old(s.packets.Rolled()), s.packets.Rolled())
    ensures s.packets.view == Unflushed(c.localId, streamId, old(s.packets.view))
    ensures c.flushFlushBytes == Thrown(c.localId, streamId, old(s.packets.view))
    ensures c.flushRefundBytes == Owed(c.localId, streamId, old(s.packets.view))
  {
    hide List.Valid, Selected, Swept, Unread, Addressed, OwedFor, FlushedBy, Without;
    FlushedByNow(c.localId, streamId, s.packets.Rolled());
    ghost var v := s.packets.view;
    ghost var k, at := 0, 0;
    SweepStart(c.localId, streamId, v);
    var packet := Head(s.packets);
    while packet != null
      invariant s.packets.Valid() && s.packets.Objects() <= old(s.packets.Objects())
      invariant k <= |v| && Swept(c.localId, streamId, v, k, s.packets.view, at, c.flushFlushBytes, c.flushRefundBytes)
      invariant FlushedBy(c.localId, streamId, old(s.packets.Rolled()), s.packets.Rolled())
      invariant if packet == null then at == |s.packets.view| else Stands(s.packets, packet, at)
      decreases |v| - k
    {
      SweepStep(c.localId, streamId, v, k, s.packets.view, at, c.flushFlushBytes, c.flushRefundBytes);
      ghost var gone, roll := Selected(c.localId, streamId, v[k].data), s.packets.Rolled();
      StandsData(s.packets, packet, at);
      if gone {
        FlushedByThen(c.localId, streamId, old(s.packets.Rolled()), roll, at);
      }
      packet := SweepOne(s, c, streamId, packet, at);
      k, at := k + 1, if gone then at else at + 1;
    }
    SweepEnd(c.localId, streamId, v, k, s.packets.view, at, c.flushFlushBytes, c.flushRefundBytes);
  }

  /** The first `k` of the packets `v` have been dealt with; what is left of them takes up the first
      `at` places of `view`. */
  ghost predicate Swept(id: u32, streamId: int, v: seq<Pkt>, k: nat, view: seq<Pkt>, at: nat, thrown: nat, refund: u32)
    requires k <= |v|
  {
    && view == Unflushed(id, streamId, v[..k]) + v[k..] && at == |Unflushed(id, streamId, v[..k])|
    && thrown == Thrown(id, streamId, v[..k]) && refund == Owed(id, streamId, v[..k])
  }

  lemma SweepStart(id: u32, streamId: int, v: seq<Pkt>)
    ensures Swept(id, streamId, v, 0, v, 0, 0, 0)
  {
  }

  lemma SweepStep(id: u32, streamId: int, v: seq<Pkt>, k: nat, view: seq<Pkt>, at: nat, thrown: nat, refund: u32)
    requires k <= |v| && Swept(id, streamId, v, k, view, at, thrown, refund) && at < |view|
    ensures k < |v| && view[at] == v[k]
    ensures if Selected(id, streamId, v[k].data)
            then Swept(id, streamId, v, k + 1, Without(view, at), at, thrown + |Unread(v[k])|, OwedFor(refund, |v[k].data|))
            else Swept(id, streamId, v, k + 1, view, at + 1, thrown, refund)
  {
    assert v[..k + 1][..k] == v[..k];
    assert v[k..] == [v[k]] + v[k + 1..];
    var kept := Unflushed(id, streamId, v[..k]);
    assert Without(view, at) == kept + v[k + 1..];
    assert kept + [v[k]] + v[k + 1..] == view;
  }

  lemma SweepEnd(id: u32, streamId: int, v: seq<Pkt>, k: nat, view: seq<Pkt>, at: nat, thrown: nat, refund: u32)
    requires k <= |v| && Swept(id, streamId, v, k, view, at, thrown, refund) && at == |view|
    ensures view == Unflushed(id, streamId, v) && thrown == Thrown(id, streamId, v) && refund == Owed(id, streamId, v)
  {
    assert v[..k] == v && v[k..] == [];
  }

  /** A data packet is long enough for its addressing fields to be read. */
  predicate Addressed(data: seq<byte>) {
    data != [] && (data[0] == CHANNEL_DATA || data[0] == CHANNEL_EXTENDED_DATA ==> |data| >= 9)
  }

  ghost predicate Stands(l: List, n: Node, at: nat)
    reads l
  {
    at < |l.nodes| == |l.view| && l.nodes[at] == n
  }

  lemma StandsData(l: List, n: Node, at: nat)
    requires l.Valid() && Stands(l, n, at)
    ensures l.view[at] == Pkt(n.data, n.dataHead)
  {
  }

  method Head(l: List) returns (n: Node?)
    requires l.Valid()
    ensures if n == null then l.view == [] else Stands(l, n, 0)
  {
    n := l.head;
  }

  /** Lines 1307-1330: the packet is counted and unlinked. */
  method Discard(s: Session, c: Channel, packet: Node, ghost at: nat)
    requires s.packets.Valid() && Stands(s.packets, packet, at)
    modifies s.packets, s.packets.Objects(), c`flushRefundBytes, c`flushFlushBytes
    ensures s.packets.Valid() && s.packets.nodes == Without(old(s.packets.nodes), at)
    ensures s.packets.clock == old(s.packets.clock)
    ensures s.packets.view == Without(old(s.packets.view), at)
    ensures c.flushFlushBytes == old(c.flushFlushBytes) + |Unread(old(s.packets.view)[at])|
    ensures c.flushRefundBytes == OwedFor(old(c.flushRefundBytes), |packet.data|)
  {
    hide OwedFor, List.Valid;
    StandsData(s.packets, packet, at);
    s.packets.Entry(at);
    var bytesToFlush := |packet.data| - packet.dataHead;
    c.flushRefundBytes := OwedFor(c.flushRefundBytes, |packet.data|);
    c.flushFlushBytes := c.flushFlushBytes + bytesToFlush;
    s.packets.Unlink(packet, at);
  }

  /** One turn of the sweep. */
  method SweepOne(s: Session, c: Channel, streamId: int, packet: Node, ghost at: nat) returns (next: Node?)
    requires s.packets.Valid() && Stands(s.packets, packet, at) && Addressed(s.packets.view[at].data)
    modifies s.packets, s.packets.Objects(), c`flushRefundBytes, c`flushFlushBytes
    ensures s.packets.Valid() && s.packets.Objects() <= old(s.packets.Objects())
    ensures var p := old(s.packets.view)[at];
            var gone := Selected(c.localId, streamId, p.data);
            && s.packets.view == (if gone then Without(old(s.packets.view), at) else old(s.packets.view))
            && s.packets.nodes == (if gone then Without(old(s.packets.nodes), at) else old(s.packets.nodes))
            && s.packets.clock == old(s.packets.clock)
            && c.flushFlushBytes == old(c.flushFlushBytes) + (if gone then |Unread(p)| else 0)
            && c.flushRefundBytes == (if gone then OwedFor(old(c.flushRefundBytes), |p.data|) else old(c.flushRefundBytes))
            && var at' := if gone then at else at + 1;
               if next == null then at' == |s.packets.view| else Stands(s.packets, next, at')
  {
    hide OwedFor, Unread, IdOf, U32Of, Signed, List.Valid, Without;
    ghost var nodes, v := s.packets.nodes, s.packets.view;
    StandsData(s.packets, packet, at);
    s.packets.Entry(at);
    WithoutAt(nodes, at);
    WithoutAt(v, at);
    next := packet.next;
    var packetType := packet.data[0];
    if (packetType == CHANNEL_DATA || packetType == CHANNEL_EXTENDED_DATA) && IdOf(packet.data) == c.localId {
      var packetStreamId := if packetType == CHANNEL_DATA then 0 else Signed(U32Of(packet.data[5..9]));
      if streamId == FLUSH_ALL
         || (packetType == CHANNEL_EXTENDED_DATA && (streamId == FLUSH_EXTENDED_DATA || streamId == packetStreamId))
         || (packetType == CHANNEL_DATA && streamId == 0) {
        Discard(s, c, packet, at);
      }
    }
  }

  /** The refund that a flush asks for, or asks for again. */
  ghost function Asked(id: u32, refund: u32, again: bool): seq<Deed> {
    if refund == 0 then [] else [if again then Repeat(id, refund) else Refund(id, refund)]
  }

  /** The end of the function: the window is adjusted, if there is something to refund. */
  method Settle(s: Session, c: Channel, ghost again: bool) returns (res: Code)
    requires s.IdsOk() && s.AllSteady() && c in s.channels && c.flushState == Created
    modifies s`sends, s`sent, c`flushState
    modifies c`remoteWindow, c`adjustQueue, c`adjustState, c`adjustAdjust
    ensures s.AllSteady() && s.World() == After(old(s.World()), Asked(c.localId, c.flushRefundBytes, again))
    ensures if c.flushRefundBytes != 0 && IsTakenForAgain(old(s.World()), c.localId, c.flushRefundBytes)
            then res == Eagain && c.flushState == Created
            else res == Ok(c.flushFlushBytes) && c.flushState == Idle
  {
    hide Session.World, Session.AllSteady, Session.IdsOk, IsTakenForAgain, Done;
    if c.flushRefundBytes != 0 {
      OneDone(s.World(), c.localId, c.flushRefundBytes, again);
      var blocked := s.Readjust(c, c.flushRefundBytes);
      if blocked {
        return Eagain;
      }
    }
    c.flushState := Idle;
    return Ok(c.flushFlushBytes);
  }

  lemma OneDone(w: World, id: u32, refund: u32, again: bool)
    requires refund != 0
    ensures After(w, Asked(id, refund, again)) == Done(w, Refund(id, refund))
  {
    hide Refunded;
    assert Asked(id, refund, again)[..0] == [];
  }

  /** `libssh2_channel_flush_ex`. Exactly the selected packets go, the answer is the number of unread
      bytes in them, and the window is adjusted once; a repeated call only repeats that. */
  method FlushEx(s: Session, c: Channel, streamId: int) returns (res: Code)
    requires s.Valid() && c in s.channels && (c.flushState == Idle || c.flushState == Created)
    requires forall p <- s.packets.view :: Addressed(p.data)
    modifies s`sends, s`sent, s.packets, s.packets.Objects()
    modifies c`flushState, c`flushRefundBytes, c`flushFlushBytes
    modifies c`remoteWindow, c`adjustQueue, c`adjustState, c`adjustAdjust
    ensures s.Valid() && s.packets.Objects() <= old(s.packets.Objects())
    ensures FlushedBy(c.localId, streamId, old(s.packets.Rolled()), s.packets.Rolled())
    ensures old(c.flushState) == Idle ==>
              && s.packets.view == Unflushed(c.localId, streamId, old(s.packets.view))
              && c.flushFlushBytes == Thrown(c.localId, streamId, old(s.packets.view))
              && c.flushRefundBytes == Owed(c.localId, streamId, old(s.packets.view))
    ensures old(c.flushState) == Created ==>
              && s.packets.view == old(s.packets.view) && c.flushFlushBytes == old(c.flushFlushBytes)
              && c.flushRefundBytes == old(c.flushRefundBytes)
    ensures s.World() == After(old(s.World()), Asked(c.localId, c.flushRefundBytes, old(c.flushState) == Created))
    ensures if c.flushRefundBytes != 0 && IsTakenForAgain(old(s.World()), c.localId, c.flushRefundBytes)
            then res == Eagain && c.flushState == Created
            else res == Ok(c.flushFlushBytes) && c.flushState == Idle
  {
    hide Unflushed, Thrown, Owed, List.Valid, FlushedBy, After, IsTakenForAgain, Session.IdsOk, Session.AllSteady;
    hide Session.World, Session.InputOk, Asked;
    FlushedByNow(c.localId, streamId, s.packets.Rolled());
    ghost var again := c.flushState == Created;
    if c.flushState == Idle {
      c.flushRefundBytes := 0;
      c.flushFlushBytes := 0;
      Sweep(s, c, streamId);
      c.flushState := Created;
    }
    res := Settle(s, c, again);
  }
}
