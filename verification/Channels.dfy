/** A session's channels and received packets: `libssh2_packet_add` for the messages of an open
    channel, and `libssh2_channel_receive_window_adjust`. */
module Channels {
  import opened Bytes
  import opened Brigade
  import opened Flow
  import opened ByteQueue
  import opened Scripts
  import opened ChannelWorld

  datatype NbState = Idle | Allocated | Created | Jump1

  /** Answers of `libssh2_packet_read` and of the channel functions. */
  datatype Code = Ok(n: nat) | Eagain | Error

  class Channel {
    const localId: u32
    const remoteId: u32
    var localWindow: u32
    const localPacketSize: u32
    var localEof: bool
    var localClose: bool
    var remoteWindow: u32
    const remotePacketSize: u32
    var remoteEof: bool
    var remoteClose: bool
    var ignoreMode: ExtMode
    var exitStatus: u32
    var adjustQueue: u32
    var adjustState: NbState
    var adjustAdjust: seq<byte>

    var readState: NbState
    var readPacket: Node?
    var readNext: Node?
    var readBlock: bool
    var readBytesRead: nat

    var writeState: NbState
    var writePacket: seq<byte>
    var writeBufwrite: nat
    var writeBufwrote: nat

    var flushState: NbState
    var flushRefundBytes: u32
    var flushFlushBytes: nat

    constructor (localId: u32, remoteId: u32, localWindow: u32, localPacketSize: u32,
                 remoteWindow: u32, remotePacketSize: u32)
      ensures this.localId == localId && this.remoteId == remoteId
      ensures this.localWindow == localWindow && this.localPacketSize == localPacketSize
      ensures this.remotePacketSize == remotePacketSize && !remoteEof && !remoteClose && !localEof && !localClose
      ensures Steady() && Flow() == State(remoteWindow, 0, remotePacketSize, Normal, None)
      ensures readState == Idle && writeState == Idle && flushState == Idle && ignoreMode == Normal
    {
      this.localId, this.remoteId, this.localWindow, this.localPacketSize := localId, remoteId, localWindow, localPacketSize;
      this.remoteWindow, this.remotePacketSize := remoteWindow, remotePacketSize;
      localEof, localClose, remoteEof, remoteClose := false, false, false, false;
      ignoreMode, exitStatus, adjustQueue, adjustState, adjustAdjust := Normal, 0, 0, Idle, [];
      readState, readPacket, readNext, readBlock, readBytesRead := Idle, null, null, false, 0;
      writeState, writePacket, writeBufwrite, writeBufwrote := Idle, [], 0, 0;
      flushState, flushRefundBytes, flushFlushBytes := Idle, 0, 0;
    }

    /** An interrupted adjustment keeps its message. */
    ghost predicate Steady()
      reads this`adjustState, this`adjustAdjust
    {
      adjustState == Idle ||
      (adjustState == Created && |adjustAdjust| == 9 && adjustAdjust == AdjustMessage(remoteId, U32Of(adjustAdjust[5..])))
    }

    /** The receiving side as a value. */
    ghost function Flow(): State
      reads this`remoteWindow, this`adjustQueue, this`ignoreMode, this`adjustState, this`adjustAdjust
    {
      State(remoteWindow, adjustQueue, remotePacketSize, ignoreMode,
            if adjustState == Created && |adjustAdjust| == 9 then Some(U32Of(adjustAdjust[5..])) else None)
    }

    /** The channel as a value. */
    ghost function View(): Chan
      reads this`remoteWindow, this`adjustQueue, this`ignoreMode, this`adjustState, this`adjustAdjust,
            this`localWindow, this`remoteEof, this`remoteClose, this`exitStatus
    {
      Chan(localId, remoteId, Flow(), localWindow, remoteEof, remoteClose, exitStatus)
    }
  }

  /** The channel with this number at our end. */
  function FindIn(channels: seq<Channel>, id: u32): (c: Channel?)
    ensures c != null ==> c in channels && c.localId == id
    ensures c == null ==> forall x <- channels :: x.localId != id
  {
    if channels == [] then null
    else if channels[0].localId == id then channels[0]
    else FindIn(channels[1..], id)
  }

  ghost function ViewsOf(channels: seq<Channel>): (views: seq<Chan>)
    reads channels`remoteWindow, channels`adjustQueue, channels`ignoreMode, channels`adjustState, channels`adjustAdjust,
          channels`localWindow, channels`remoteEof, channels`remoteClose, channels`exitStatus
    ensures |views| == |channels| && forall i | 0 <= i < |channels| :: views[i] == channels[i].View()
  {
    if channels == [] then [] else [channels[0].View()] + ViewsOf(channels[1..])
  }

  /** The search by number is the same on the channels and on their values. */
  lemma {:induction false} FindsSame(channels: seq<Channel>, id: u32)
    ensures var k := Find(ViewsOf(channels), id);
            FindIn(channels, id) == if k == None then null else channels[k.value]
  {
    hide Channel.View;
    if channels != [] {
      IdKept(channels[0]);
      FindsSame(channels[1..], id);
      assert ViewsOf(channels)[1..] == ViewsOf(channels[1..]);
    }
  }

  lemma ViewIs(c: Channel)
    ensures c.View() == Chan(c.localId, c.remoteId, c.Flow(), c.localWindow, c.remoteEof, c.remoteClose, c.exitStatus)
  {
  }

  lemma IdKept(c: Channel)
    ensures c.View().localId == c.localId && c.View().remoteId == c.remoteId && c.View().flow == c.Flow()
    ensures c.View().localWindow == c.localWindow
  {
  }

  datatype AddResult = Added | AddAgain | AddFailed

  class Session {
    const packets: List
    var channels: seq<Channel>
    var nextChannel: u32
    var incoming: seq<Incoming>
    var sends: seq<WriteOutcome>
    /** The messages completely handed to the transport layer. */
    var sent: seq<seq<byte>>
    var socketBlock: bool
    var connected: bool
    var packAddState: NbState
    var packAddChannel: Channel?
    /** The packet whose `libssh2_packet_add` is unfinished. */
    var pending: seq<byte>

    constructor (incoming: seq<Incoming>, sends: seq<WriteOutcome>, socketBlock: bool)
      requires forall i | 0 <= i < |incoming| :: incoming[i].Payload? ==> WellFormed(incoming[i].data)
      ensures Valid() && channels == [] && packets.nodes == [] && fresh(packets) && nextChannel == 0
      ensures this.incoming == incoming && this.sends == sends && this.socketBlock == socketBlock
      ensures sent == [] && connected && packAddState == Idle
    {
      packets := new List();
      channels, nextChannel := [], 0;
      this.incoming, this.sends, this.socketBlock := incoming, sends, socketBlock;
      sent, connected, packAddState, packAddChannel, pending := [], true, Idle, null, [];
    }

    ghost function Views(): seq<Chan>
      reads this`channels
      reads channels`remoteWindow, channels`adjustQueue, channels`ignoreMode, channels`adjustState, channels`adjustAdjust,
            channels`localWindow, channels`remoteEof, channels`remoteClose, channels`exitStatus
    {
      ViewsOf(channels)
    }

    /** The session as a value. */
    ghost function World(): World
      reads this`channels, this`incoming, this`sends, this`sent, this`connected, this`packAddState, this`pending
      reads channels`remoteWindow, channels`adjustQueue, channels`ignoreMode, channels`adjustState, channels`adjustAdjust,
            channels`localWindow, channels`remoteEof, channels`remoteClose, channels`exitStatus
    {
      ChannelWorld.World(Views(), incoming, sends, sent, connected, if packAddState == Jump1 then Some(pending) else None)
    }

    /** Where a channel's value is. */
    lemma Finds(c: Channel)
      requires IdsOk() && c in channels
      ensures var k := Find(Views(), c.localId);
              k.Some? && channels[k.value] == c && Views()[k.value] == c.View() &&
              forall i | 0 <= i < |channels| && i != k.value :: channels[i] != c
    {
      FindsSame(channels, c.localId);
      IdKept(c);
    }

    lemma ViewsChanged(before: seq<Chan>, k: Option<nat>, v: Chan)
      requires |before| == |channels| && (k.Some? ==> k.value < |before|)
      requires forall i | 0 <= i < |channels| :: channels[i].View() == if k == Some(i) then v else before[i]
      ensures Views() == if k == None then before else before[k.value := v]
    {
    }

    /** Live channel numbers are pairwise distinct and below the next one. */
    ghost predicate IdsOk()
      reads this`channels, this`nextChannel
    {
      && (forall i, j | 0 <= i < j < |channels| :: channels[i].localId != channels[j].localId)
      && (forall i | 0 <= i < |channels| :: channels[i].localId < nextChannel)
    }

    ghost predicate AllSteady()
      reads this`channels, channels`adjustState, channels`adjustAdjust
    {
      forall c <- channels :: c.Steady()
    }

    ghost predicate Valid()
      reads this`channels, this`nextChannel, this`incoming, this`packAddState, this`packAddChannel, this`pending
      reads packets, packets.nodes, channels`adjustState, channels`adjustAdjust
    {
      packets.Valid() && IdsOk() && AllSteady() && InputOk()
    }

    /** What comes in is well formed, also the packet whose addition is unfinished. */
    ghost predicate InputOk()
      reads this`incoming, this`packAddState, this`packAddChannel, this`channels, this`pending
    {
      && (forall i | 0 <= i < |incoming| :: incoming[i].Payload? ==> WellFormed(incoming[i].data))
      && (packAddState == Idle ||
          (packAddState == Jump1 && packAddChannel != null && packAddChannel == FindIn(channels, IdOf(pending)) &&
           WellFormed(pending) && IsData(pending) && |pending| >= 13))
    }

    /** `libssh2_packet_write`. */
    method PacketWrite(m: seq<byte>) returns (w: WriteOutcome)
      modifies this`sends, this`sent
      ensures w == NextSend(old(sends)) && sends == Later(old(sends))
      ensures sent == if w == Sent then old(sent) + [m] else old(sent)
    {
      w := if sends == [] then Again else sends[0];
      sends := if sends == [] then [] else sends[1..];
      if w == Sent {
        sent := sent + [m];
      }
    }

    /** `libssh2_channel_locate`. */
    method Locate(id: u32) returns (c: Channel?)
      ensures c == FindIn(channels, id)
    {
      var i := 0;
      while i < |channels|
        invariant i <= |channels| && FindIn(channels, id) == FindIn(channels[i..], id)
      {
        if channels[i].localId == id {
          return channels[i];
        }
        i := i + 1;
      }
      return null;
    }

    /** `libssh2_channel_nextid`. The number is one no live channel has exactly if all live numbers
        are below the session's counter; taking numbers from here keeps it so until they wrap. */
    method NextId() returns (id: u32)
      modifies this`nextChannel
      ensures nextChannel == Add32(id, 1)
      ensures FindIn(channels, id) == null <==> forall c <- channels :: c.localId < old(nextChannel)
      ensures FindIn(channels, id) == null ==> id == old(nextChannel)
      ensures old(nextChannel) <= id && forall c <- channels :: c.localId <= id
      ensures old(IdsOk()) && id + 1 < TWO32 ==> IdsOk() && id < nextChannel
    {
      id := nextChannel;
      var i := 0;
      while i < |channels|
        invariant i <= |channels| && old(nextChannel) <= id
        invariant forall j | 0 <= j < i :: channels[j].localId <= id
        invariant id == old(nextChannel) || exists j :: 0 <= j < i && channels[j].localId == id
      {
        if channels[i].localId > id {
          id := channels[i].localId;
        }
        i := i + 1;
      }
      nextChannel := Add32(id, 1);
    }

    /** CHANNEL_ADD. */
    method AddChannel(c: Channel)
      requires Valid() && c.Steady() && c.localId < nextChannel && FindIn(channels, c.localId) == null
      modifies this`channels
      ensures Valid() && channels == old(channels) + [c]
    {
      FoundStill(channels, c, IdOf(pending));
      channels := channels + [c];
    }

    /** `libssh2_channel_receive_window_adjust`. */
    method ReceiveWindowAdjust(c: Channel, a: u32, force: bool) returns (code: u32)
      requires c.Steady()
      modifies this`sends, this`sent, c`remoteWindow, c`adjustQueue, c`adjustState, c`adjustAdjust
      ensures c.Steady() && sends == if Writes(old(c.Flow()), a, force) then Later(old(sends)) else old(sends)
      ensures var r := Adjust(old(c.Flow()), a, force, NextSend(old(sends)));
              c.Flow() == r.state && code == ReturnCode(r) && sent == old(sent) + Announcement(c.remoteId, r)
      ensures force && old(c.Flow()).underway == None ==>
                sent == if Add32(a, old(c.adjustQueue)) == 0 && a == 0 then old(sent)
                        else if NextSend(old(sends)) == Sent
                        then old(sent) + [AdjustMessage(c.remoteId, Add32(a, old(c.adjustQueue)))] else old(sent)
    {
      hide AdjustMessage, U32Of;
      var adjustment := a;
      if c.adjustState == Idle {
        if !force && Add32(adjustment, c.adjustQueue) < MINADJUST {
          c.adjustQueue := Add32(c.adjustQueue, adjustment);
          return c.remoteWindow;
        }
        if adjustment == 0 && c.adjustQueue == 0 {
          return c.remoteWindow;
        }
        adjustment := Add32(adjustment, c.adjustQueue);
        c.adjustQueue := 0;
        c.adjustAdjust := AdjustMessage(c.remoteId, adjustment);
        AdjustMessageAmount(c.remoteId, adjustment);
        c.adjustState := Created;
      }
      var rc := PacketWrite(c.adjustAdjust);
      if rc == Again {
        return EAGAIN_CODE;
      } else if rc == Failed {
        c.adjustQueue := adjustment;
        c.adjustState := Idle;
      } else {
        c.adjustState := Idle;
        c.remoteWindow := Add32(c.remoteWindow, adjustment);
      }
      return c.remoteWindow;
    }

    /** Such a call, not forced, for a channel of this session. */
    method Readjust(c: Channel, a: u32) returns (again: bool)
      requires IdsOk() && AllSteady() && c in channels
      modifies this`sends, this`sent, c`remoteWindow, c`adjustQueue, c`adjustState, c`adjustAdjust
      ensures AllSteady() && World() == Done(old(World()), Deed.Refund(c.localId, a))
      ensures again == IsTakenForAgain(old(World()), c.localId, a)
    {
      hide Adjust, Writes, Channel.Flow, Channel.Steady, Announcement, ReturnCode, Session.IdsOk, Channel.View;
      hide Done, IsTakenForAgain;
      Finds(c);
      RefundDone(World(), c.localId, Find(Views(), c.localId).value, a);
      ghost var before, k := Views(), Find(Views(), c.localId);
      ViewIs(c);
      var code := ReceiveWindowAdjust(c, a, false);
      ViewIs(c);
      again := code == EAGAIN_CODE;
      ViewOthers(before, c, k.value);
      ViewsChanged(before, k, c.View());
    }

    lemma ViewOthers(before: seq<Chan>, c: Channel, k: nat)
      requires IdsOk() && |before| == |channels| && k < |channels| && channels[k] == c
      requires forall i | 0 <= i < |channels| && channels[i] != c :: channels[i].View() == before[i]
      ensures forall i | 0 <= i < |channels| :: channels[i].View() == if i == k then c.View() else before[i]
    {
    }

    static lemma FoundStill(channels: seq<Channel>, c: Channel, id: u32)
      ensures FindIn(channels, id) != null ==> FindIn(channels + [c], id) == FindIn(channels, id)
    {
      if channels != [] && channels[0].localId != id {
        FoundStill(channels[1..], c, id);
        assert (channels + [c])[1..] == channels[1..] + [c];
      }
    }

    /** A packet joins the brigade (packet.c:878-908). */
    method Link(data: seq<byte>, head: nat)
      requires packets.Valid() && 0 < |data| < TWO32 && head <= |data|
      modifies packets, packets.Objects()`next
      ensures packets.Valid() && Grew([Pkt(data, head)])
    {
      var n := new Node(data, head, packets.clock);
      packets.Append(n);
    }

    /** The packets `more` were linked, in nodes of their own, behind those already there. */
    twostate predicate Grew(more: seq<Pkt>)
      reads packets
    {
      && packets.view == old(packets.view) + more
      && old(packets.nodes) <= packets.nodes && |packets.nodes| == |old(packets.nodes)| + |more|
      && fresh(packets.Objects() - old(packets.Objects())) && Since(old(packets.Rolled()), packets.Rolled())
    }

    /** Data to be ignored is refunded at once (packet.c:650-674). */
    method IgnoreData(c: Channel, data: seq<byte>) returns (r: AddResult)
      requires IdsOk() && AllSteady() && 13 <= |data| < TWO32 && packAddState == Idle && pending == data
      requires c == FindIn(channels, IdOf(data)) && c.ignoreMode == Ignore && data[0] == CHANNEL_EXTENDED_DATA
      modifies this`sends, this`sent, this`packAddState, this`packAddChannel
      modifies c`remoteWindow, c`adjustQueue, c`adjustState, c`adjustAdjust
      ensures AllSteady() && World() == Told(old(World()), data)
      ensures if r == AddAgain then packAddState == Jump1 && packAddChannel == c else r == Added && packAddState == Idle
    {
      hide Done, Told, IsTakenForAgain, Session.IdsOk, Channel.Steady, Channel.View, Ignores, FindIn, IdOf;
      hide Session.Views;
      Finds(c);
      Mode(c, data);
      ToldIgnored(World(), Find(Views(), c.localId).value, data);
      packAddChannel := c;
      packAddState := Jump1;
      var again := Readjust(c, |data| - 13);
      if again {
        return AddAgain;
      }
      packAddState := Idle;
      return Added;
    }

    /** Other data is cut to what the peer may send and linked (packet.c:676-723). */
    method KeepData(c: Channel, data: seq<byte>)
      requires packets.Valid() && IsData(data) && |data| < TWO32
      requires !(c.ignoreMode == Ignore && data[0] == CHANNEL_EXTENDED_DATA)
      modifies packets, packets.Objects()`next, c`remoteWindow, c`remoteEof
      ensures packets.Valid()
      ensures c.View() == Heard(old(c.View()), data) && Grew(LinkedBy(Some(old(c.View())), data))
    {
      hide List.Valid, Since, U32Of;
      SinceNow(packets.Rolled());
      var dataHead := HeadOf(data);
      var datalen := |data|;
      if c.remotePacketSize < datalen - dataHead {
        datalen := c.remotePacketSize + dataHead;
      }
      if c.remoteWindow <= 0 {
        return;
      }
      c.remoteEof := false;
      if datalen - dataHead > c.remoteWindow {
        datalen := c.remoteWindow + dataHead;
      } else {
        c.remoteWindow := c.remoteWindow - (datalen - dataHead);
      }
      Link(data[..datalen], dataHead);
    }

    static lemma NobodyListens(w: World, data: seq<byte>)
      requires IsData(data) && |data| < TWO32 && Find(w.views, IdOf(data)) == None
      ensures OwnerOf(w, data) == None && LinkedBy(None, data) == [] && Told(w, data) == w
    {
    }

    lemma NothingLinked(c: Channel, data: seq<byte>)
      requires IdsOk() && c == FindIn(channels, IdOf(data)) && WellFormed(data) && Ignores(c.View(), data)
      ensures LinkedBy(OwnerOf(World(), data), data) == []
    {
      hide IdOf;
      Finds(c);
    }

    lemma NotFound(id: u32)
      requires FindIn(channels, id) == null
      ensures Find(World().views, id) == None
    {
      FindsSame(channels, id);
    }

    /** Channel data (packet.c:614-725). */
    method AddData(data: seq<byte>) returns (r: AddResult)
      requires packets.Valid() && IdsOk() && AllSteady() && packAddState == Idle && pending == data
      requires IsData(data) && |data| < TWO32
      modifies this`sends, this`sent, this`packAddState, this`packAddChannel
      modifies packets, packets.Objects()`next
      modifies channels`remoteWindow, channels`adjustQueue, channels`adjustState, channels`adjustAdjust,
               channels`remoteEof, channels`remoteClose, channels`localWindow, channels`exitStatus
      ensures packets.Valid() && AllSteady() && World() == Told(old(World()), data)
      ensures Grew(LinkedBy(OwnerOf(old(World()), data), data))
      ensures if r == AddAgain
              then packAddState == Jump1 && packAddChannel == FindIn(channels, IdOf(data)) != null && |data| >= 13
              else r == Added && packAddState == Idle
    {
      hide List.Valid, Since, LinkedBy, Channel.Steady, Channel.View, IdOf, FindIn, Ignores, Told, Session.IdsOk;
      hide OwnerOf, Session.AllSteady, Session.World;
      SinceNow(packets.Rolled());
      var c := Locate(IdOf(data));
      if c == null {
        NotFound(IdOf(data));
        NobodyListens(World(), data);
        return Added;
      }
      Mode(c, data);
      if c.ignoreMode == Ignore && data[0] == CHANNEL_EXTENDED_DATA {
        NothingLinked(c, data);
        r := IgnoreData(c, data);
      } else {
        AddKept(c, data);
        r := Added;
      }
    }

    /** The data is for this channel, and is kept as far as there is window. */
    method AddKept(c: Channel, data: seq<byte>)
      requires packets.Valid() && IdsOk() && AllSteady() && IsData(data) && |data| < TWO32
      requires c == FindIn(channels, IdOf(data)) && !Ignores(c.View(), data)
      modifies packets, packets.Objects()`next, c`remoteWindow, c`remoteEof
      ensures packets.Valid() && AllSteady() && World() == Told(old(World()), data)
      ensures Grew(LinkedBy(OwnerOf(old(World()), data), data))
    {
      hide List.Valid, Since, Heard, LinkedBy, Channel.Steady, Channel.View, Refunded, TakenForAgain, IdOf, FindIn;
      hide Ignores;
      FindsSame(channels, IdOf(data));
      Mode(c, data);
      ghost var before, k := Views(), Find(Views(), IdOf(data));
      ViewsChanged(before, None, before[k.value]);
      KeepData(c, data);
      ViewOthers(before, c, k.value);
      ViewsChanged(before, k, c.View());
    }

    lemma Mode(c: Channel, data: seq<byte>)
      ensures Ignores(c.View(), data) <==> data != [] && c.ignoreMode == Ignore && data[0] == CHANNEL_EXTENDED_DATA
    {
    }

    /** The channel a message is for, if it is known. */
    ghost function Owner(data: seq<byte>): set<Channel>
      reads this`channels
    {
      var c := FindIn(channels, IdOf(data));
      if c == null then {} else {c}
    }

    /** SSH_MSG_CHANNEL_EOF and SSH_MSG_CHANNEL_CLOSE (packet.c:727-750, 781-805). */
    method AddEnd(data: seq<byte>)
      requires WellFormed(data) && (data[0] == CHANNEL_EOF || data[0] == CHANNEL_CLOSE)
      modifies Owner(data)`remoteEof, Owner(data)`remoteClose
      ensures forall c <- Owner(data) :: c.View() == Heard(old(c.View()), data)
    {
      var c := Locate(IdOf(data));
      if c != null {
        if data[0] == CHANNEL_CLOSE {
          c.remoteClose := true;
        }
        c.remoteEof := true;
      }
    }

    /** SSH_MSG_CHANNEL_WINDOW_ADJUST (packet.c:851-871). */
    method AddCredit(data: seq<byte>)
      requires WellFormed(data) && data[0] == CHANNEL_WINDOW_ADJUST
      modifies Owner(data)`localWindow
      ensures forall c <- Owner(data) :: c.View() == Heard(old(c.View()), data)
    {
      var bytestoadd := U32Of(data[5..9]);
      var c := Locate(IdOf(data));
      if c != null && bytestoadd > 0 {
        c.localWindow := Add32(c.localWindow, bytestoadd);
      }
    }

    /** The "exit-status" request (packet.c:753-779). */
    method AddExitStatus(data: seq<byte>)
      requires WellFormed(data) && IsExitStatus(data)
      modifies Owner(data)`exitStatus
      ensures forall c <- Owner(data) :: c.View() == Heard(old(c.View()), data)
    {
      var c := Locate(IdOf(data));
      if c != null {
        c.exitStatus := U32Of(data[21..25]);
      }
    }

    /** A message for `libssh2_packet_add` other than channel data. */
    method AddOther(data: seq<byte>) returns (r: AddResult)
      requires packets.Valid() && WellFormed(data) && data[0] != CHANNEL_DATA && data[0] != CHANNEL_EXTENDED_DATA
      modifies this`connected, packets, packets.Objects()`next
      modifies Owner(data)`remoteEof, Owner(data)`remoteClose, Owner(data)`localWindow, Owner(data)`exitStatus
      ensures packets.Valid() && Grew(LinkedBy(None, data))
      ensures forall c <- Owner(data) :: c.View() == Heard(old(c.View()), data)
      ensures r == (if data[0] == DISCONNECT then AddFailed else Added)
      ensures connected == (old(connected) && data[0] != DISCONNECT)
    {
      hide List.Valid, Since, FindIn, U32Of;
      SinceNow(packets.Rolled());
      r := Added;
      var t := data[0];
      if t == DISCONNECT {
        connected := false;
        r := AddFailed;
      } else if t == IGNORE || t == DEBUG {
      } else if t == CHANNEL_EOF || t == CHANNEL_CLOSE {
        AddEnd(data);
      } else if t == CHANNEL_WINDOW_ADJUST {
        AddCredit(data);
      } else if IsExitStatus(data) {
        AddExitStatus(data);
      } else {
        Link(data, 0);
      }
    }

    static lemma OtherLinks(o: Option<Chan>, data: seq<byte>)
      requires WellFormed(data) && data[0] != CHANNEL_DATA && data[0] != CHANNEL_EXTENDED_DATA
      ensures LinkedBy(o, data) == LinkedBy(None, data) && forall v :: !Ignores(v, data)
    {
    }

    /** `libssh2_packet_add` on a new message. */
    method AddNew(data: seq<byte>) returns (r: AddResult)
      requires packets.Valid() && IdsOk() && AllSteady() && packAddState == Idle && pending == data && WellFormed(data)
      modifies this`sends, this`sent, this`packAddState, this`packAddChannel, this`connected
      modifies packets, packets.Objects()`next
      modifies channels`remoteWindow, channels`adjustQueue, channels`adjustState, channels`adjustAdjust,
               channels`remoteEof, channels`remoteClose, channels`localWindow, channels`exitStatus
      ensures packets.Valid() && AllSteady() && World() == Told(old(World()), data)
      ensures Grew(LinkedBy(OwnerOf(old(World()), data), data))
      ensures if r == AddAgain
              then packAddState == Jump1 && packAddChannel == FindIn(channels, IdOf(data)) != null && IsData(data) && |data| >= 13
              else r == (if data[0] == DISCONNECT then AddFailed else Added) && packAddState == Idle
    {
      hide List.Valid, Since, Heard, LinkedBy, Channel.Steady, Channel.View, IdOf, FindIn, Refunded, TakenForAgain;
      hide Ignores;
      if data[0] == CHANNEL_DATA || data[0] == CHANNEL_EXTENDED_DATA {
        r := AddData(data);
      } else {
        r := AddElse(data);
      }
    }

    /** What such a message does to the channels' values. */
    method HearOther(data: seq<byte>) returns (r: AddResult)
      requires packets.Valid() && IdsOk() && WellFormed(data) && data[0] != CHANNEL_DATA
      requires data[0] != CHANNEL_EXTENDED_DATA
      modifies this`connected, packets, packets.Objects()`next
      modifies Owner(data)`remoteEof, Owner(data)`remoteClose, Owner(data)`localWindow, Owner(data)`exitStatus
      ensures packets.Valid() && Grew(LinkedBy(None, data))
      ensures var k, before := Find(old(Views()), IdOf(data)), old(Views());
              Views() == if k == None then before else before[k.value := Heard(before[k.value], data)]
      ensures r == (if data[0] == DISCONNECT then AddFailed else Added)
      ensures connected == (old(connected) && data[0] != DISCONNECT)
    {
      hide List.Valid, Since, Heard, LinkedBy, Channel.View, IdOf, FindIn, WellFormed;
      FindsSame(channels, IdOf(data));
      ghost var before, k := Views(), Find(Views(), IdOf(data));
      r := AddOther(data);
      if k.Some? {
        ViewOthers(before, channels[k.value], k.value);
        ViewsChanged(before, k, channels[k.value].View());
      } else {
        ViewsKept(before);
      }
    }

    /** Such a message as a step of the session. */
    method AddElse(data: seq<byte>) returns (r: AddResult)
      requires packets.Valid() && IdsOk() && AllSteady() && packAddState == Idle
      requires WellFormed(data) && data[0] != CHANNEL_DATA && data[0] != CHANNEL_EXTENDED_DATA
      modifies this`connected, packets, packets.Objects()`next
      modifies Owner(data)`remoteEof, Owner(data)`remoteClose, Owner(data)`localWindow, Owner(data)`exitStatus
      ensures packets.Valid() && AllSteady() && World() == Told(old(World()), data)
      ensures Grew(LinkedBy(OwnerOf(old(World()), data), data))
      ensures r == (if data[0] == DISCONNECT then AddFailed else Added)
    {
      hide List.Valid, Since, Heard, LinkedBy, Channel.Steady, Channel.View, IdOf, FindIn, WellFormed, Told;
      hide Session.Views;
      hide Find, Session.IdsOk, OwnerOf;
      ghost var w := World();
      OtherLinks(OwnerOf(w, data), data);
      r := HearOther(data);
      ToldElse(w, World(), data);
    }

    lemma ViewsKept(before: seq<Chan>)
      requires |before| == |channels| && forall i | 0 <= i < |channels| :: channels[i].View() == before[i]
      ensures Views() == before
    {
    }

    static lemma ToldElse(w: World, w': World, data: seq<byte>)
      requires WellFormed(data) && data[0] != CHANNEL_DATA && data[0] != CHANNEL_EXTENDED_DATA
      requires var k := Find(w.views, IdOf(data));
               w' == w.(views := if k == None then w.views else w.views[k.value := Heard(w.views[k.value], data)],
                        connected := w.connected && data[0] != DISCONNECT)
      ensures w' == Told(w, data)
    {
      hide Heard, IdOf;
    }

    /** The refund of ignored data is repeated (from line 661). */
    method AddAgainNow(data: seq<byte>) returns (r: AddResult)
      requires IdsOk() && AllSteady() && packAddState == Jump1 && pending == data && 13 <= |data| < TWO32
      requires packAddChannel != null && packAddChannel == FindIn(channels, IdOf(data))
      modifies this`sends, this`sent, this`packAddState
      modifies packAddChannel`remoteWindow, packAddChannel`adjustQueue, packAddChannel`adjustState, packAddChannel`adjustAdjust
      ensures AllSteady() && World() == Retold(old(World()), data)
      ensures if r == AddAgain then packAddState == Jump1 else r == Added && packAddState == Idle
    {
      hide Done, Retold, IsTakenForAgain, Session.IdsOk, Channel.Steady, Channel.View, FindIn, IdOf, Session.Views;
      Finds(packAddChannel);
      RetoldIs(World(), Find(Views(), packAddChannel.localId).value, data);
      var again := Readjust(packAddChannel, |data| - 13);
      if again {
        return AddAgain;
      }
      packAddState := Idle;
      return Added;
    }

    /** `libssh2_packet_add` on the messages of open channels. Re-entered after EAGAIN it only
        repeats the refund of ignored data. */
    method PacketAdd(data: seq<byte>) returns (r: AddResult)
      requires packets.Valid() && IdsOk() && AllSteady() && InputOk() && pending == data && WellFormed(data)
      modifies this`sends, this`sent, this`packAddState, this`packAddChannel, this`connected
      modifies packets, packets.Objects()`next
      modifies channels`remoteWindow, channels`adjustQueue, channels`adjustState, channels`adjustAdjust,
               channels`remoteEof, channels`remoteClose, channels`localWindow, channels`exitStatus
      ensures packets.Valid() && AllSteady() && InputOk() && (r == AddAgain <==> packAddState == Jump1)
      ensures World() == if old(packAddState) == Idle then Told(old(World()), data) else Retold(old(World()), data)
      ensures Grew(if old(packAddState) == Idle then LinkedBy(OwnerOf(old(World()), data), data) else [])
      ensures r != AddAgain ==> r == if old(packAddState) == Idle && data[0] == DISCONNECT then AddFailed else Added
    {
      hide List.Valid, Since, Heard, LinkedBy, Channel.Steady, Channel.View, Told, Retold;
      SinceNow(packets.Rolled());
      if packAddState == Jump1 {
        r := AddAgainNow(data);
      } else {
        r := AddNew(data);
      }
    }

    /** A packet is received, if there is one. */
    method TakeIn() returns (stop: Option<ReadCode>)
      requires InputOk() && packAddState == Idle
      modifies this`incoming, this`pending
      ensures InputOk() && incoming == if connected then Later(old(incoming)) else old(incoming)
      ensures stop == if !connected then Some(Type(0)) else match NextIn(old(incoming))
                                                            case NoData => Some(Blocked)
                                                            case Broken => Some(Fail)
                                                            case Payload(_) => None
      ensures stop == None ==> NextIn(old(incoming)) == Payload(pending) && WellFormed(pending)
    {
      if !connected {
        return Some(Type(0));
      }
      var next := if incoming == [] then NoData else incoming[0];
      incoming := if incoming == [] then [] else incoming[1..];
      if next == NoData {
        return Some(Blocked);
      }
      if next == Broken {
        return Some(Fail);
      }
      pending := next.data;
      return None;
    }

    /** `libssh2_packet_read` as the channel functions see it: answer, packets linked and all that the
        peer or the transport layer can notice are those of the specification. */
    method PacketRead() returns (rc: ReadCode)
      requires Valid()
      modifies this`sends, this`sent, this`packAddState, this`packAddChannel, this`connected, this`incoming, this`pending
      modifies packets, packets.Objects()`next
      modifies channels`remoteWindow, channels`adjustQueue, channels`adjustState, channels`adjustAdjust,
               channels`remoteEof, channels`remoteClose, channels`localWindow, channels`exitStatus
      ensures Valid() && Grew(ReadLinks(old(World())))
      ensures World() == Listened(old(World())) && rc == ReadAnswer(old(World()))
    {
      hide List.Valid, Since, LinkedBy, Session.AllSteady, Session.IdsOk, Session.Views, Told, Retold;
      SinceNow(packets.Rolled());
      if packAddState == Idle {
        var stop := TakeIn();
        if stop.Some? {
          return stop.value;
        }
      }
      var r := PacketAdd(pending);
      rc := if r == Added then Type(pending[0]) else if r == AddAgain then Blocked else Fail;
    }
  }

  /** The counter has come to its last value: that number is given out, and then once more. */
  method NumbersWrap() returns (s: Session, first: u32, second: u32)
    ensures first == second && FindIn(s.channels, second) != null
  {
    s := new Session([], [], false);
    s.nextChannel := 0xFFFF_FFFF;
    first := s.NextId();
    var c := new Channel(first, 0, 0, 0, 0, 0);
    s.channels := [c];
    second := s.NextId();
  }
}
