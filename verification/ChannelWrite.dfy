/** `libssh2_channel_write_ex`: a buffer cut into data messages. */
module ChannelWrite {
  import opened Bytes
  import opened Brigade
  import opened Flow
  import opened ByteQueue
  import opened Scripts
  import opened ChannelWorld
  import opened Channels
  import opened PeerMessages

  function Flatten(chunks: seq<seq<byte>>): seq<byte> {
    if chunks == [] then [] else Flatten(chunks[..|chunks| - 1]) + chunks[|chunks| - 1]
  }

  lemma FlattenMore(chunks: seq<seq<byte>>, part: seq<byte>)
    ensures Flatten(chunks + [part]) == Flatten(chunks) + part
  {
    assert (chunks + [part])[..|chunks|] == chunks;
  }

  /** How a write stands between two calls: not begun, waiting for window, or with a message that is
      still to be sent. */
  datatype Standing = Fresh | Waiting | Holding(part: seq<byte>)

  predicate Sits(buf: seq<byte>, at: Standing) {
    at.Holding? ==> 0 < |at.part| <= |buf|
  }

  /** What a call from there sends if it gets to the end. */
  function Plan(buf: seq<byte>, at: Standing): seq<byte>
    requires Sits(buf, at)
  {
    if at.Holding? then at.part + buf[|at.part|..] else buf
  }

  /** One call: `done` was sent, and the write now stands at `to`. */
  ghost predicate Moves(buf: seq<byte>, from: Standing, done: seq<byte>, to: Standing)
    requires Sits(buf, from)
  {
    var plan := Plan(buf, from);
    && done <= plan && Sits(buf, to)
    && (to.Holding? ==> to.part <= plan[|done|..])
    && (to.Fresh? ==> done == plan)
  }

  /** The message at hand, within what the peer allows. */
  ghost predicate Loaded(c: Channel, streamId: u32, part: seq<byte>)
    reads c`writePacket, c`writeBufwrite
  {
    0 < |part| == c.writeBufwrite <= c.localPacketSize && c.writePacket == DataMessage(c.remoteId, streamId, part)
  }

  ghost predicate StandsAt(c: Channel, streamId: u32, at: Standing)
    reads c`writeState, c`writePacket, c`writeBufwrite
  {
    match at
    case Fresh => c.writeState == Idle
    case Waiting => c.writeState == Allocated
    case Holding(part) => c.writeState == Created && Loaded(c, streamId, part)
  }

  /** A call of the function: the channel, the stream, the packet size; what it is to send; whether it
      goes on with a message cut before; the session and the brigade as it found them. */
  datatype Task =
    Task(id: u32, streamId: u32, packetSize: u32, plan: seq<byte>, held: bool, world: World, view: seq<Pkt>)

  /** The channel's sending window. */
  function Window(w: World, id: u32): u32 {
    var k := Find(w.views, id);
    if k.Some? then w.views[k.value].localWindow else 0
  }

  /** The payloads of the data messages that went out. */
  function Parts(w: World, deeds: seq<Deed>): seq<seq<byte>> {
    if deeds == [] then [] else
    var front, last := deeds[..|deeds| - 1], deeds[|deeds| - 1];
    Parts(w, front) + if last.Say? && NextSend(After(w, front).sends) == Sent then [last.part] else []
  }

  /** When `done` has gone out: a packet is read only while there is no window and something left to send;
      a message is of this channel and stream and carries what comes next, within the packet size and,
      unless it was cut before, as much as that and the window allow. */
  predicate Rightly(k: Task, w: World, done: seq<byte>, d: Deed, first: bool) {
    match d
    case Listen => Window(w, k.id) == 0 && done != k.plan
    case Say(id, streamId, part) =>
      && id == k.id && streamId == k.streamId && 0 < |part| <= k.packetSize && done + part <= k.plan
      && ((k.held && first) || Full(k, w, done, part))
    case _ => false
  }

  /** The message is within the window, and reaches one of its limits. */
  predicate Full(k: Task, w: World, done: seq<byte>, part: seq<byte>) {
    && |part| <= Window(w, k.id)
    && (|part| == Window(w, k.id) || |part| == k.packetSize || done + part == k.plan)
  }

  ghost predicate Proper(k: Task, deeds: seq<Deed>) {
    forall i | 0 <= i < |deeds| ::
      Rightly(k, After(k.world, deeds[..i]), Flatten(Parts(k.world, deeds[..i])), deeds[i], i == 0)
  }

  /** In the course of a call these were its deeds, and `done` went out with them. */
  ghost predicate Course(k: Task, deeds: seq<Deed>, world: World, view: seq<Pkt>, done: seq<byte>) {
    && world == After(k.world, deeds) && view == k.view + Linked(k.world, deeds)
    && Proper(k, deeds) && done == Flatten(Parts(k.world, deeds))
  }

  lemma CourseStarts(k: Task)
    ensures Course(k, [], k.world, k.view, [])
  {
  }

  lemma ProperMore(k: Task, deeds: seq<Deed>, d: Deed)
    requires Proper(k, deeds) && Rightly(k, After(k.world, deeds), Flatten(Parts(k.world, deeds)), d, deeds == [])
    ensures Proper(k, deeds + [d])
  {
    hide After, Rightly, Parts, Flatten;
    var all := deeds + [d];
    assert all[..|deeds|] == deeds;
    forall i | 0 <= i < |all|
      ensures Rightly(k, After(k.world, all[..i]), Flatten(Parts(k.world, all[..i])), all[i], i == 0)
    {
      if i < |deeds| {
        assert all[..i] == deeds[..i];
      }
    }
  }

  lemma PartsMore(w: World, deeds: seq<Deed>, d: Deed)
    ensures Parts(w, deeds + [d]) ==
              Parts(w, deeds) + if d.Say? && NextSend(After(w, deeds).sends) == Sent then [d.part] else []
  {
    hide After;
    assert (deeds + [d])[..|deeds|] == deeds;
  }

  lemma CourseListens(k: Task, deeds: seq<Deed>, world: World, view: seq<Pkt>, done: seq<byte>)
    requires Course(k, deeds, world, view, done) && Window(world, k.id) == 0 && done != k.plan
    ensures Course(k, deeds + [Listen], Listened(world), view + ReadLinks(world), done)
    ensures Answered(k.world, deeds + [Listen], ReadAnswer(world))
  {
    hide Listened, ReadAnswer, Window, Proper, Parts, Flatten, ReadLinks;
    AfterMore(k.world, deeds, Listen);
    ProperMore(k, deeds, Listen);
    PartsMore(k.world, deeds, Listen);
    Associative(k.view, Linked(k.world, deeds), ReadLinks(world));
    assert Parts(k.world, deeds) + [] == Parts(k.world, deeds);
    assert (deeds + [Listen])[..|deeds|] == deeds;
  }

  /** The last deed was a data message, and so its write was answered. */
  ghost predicate Spoke(w: World, deeds: seq<Deed>, out: WriteOutcome) {
    deeds != [] && deeds[|deeds| - 1].Say? && NextSend(After(w, deeds[..|deeds| - 1]).sends) == out
  }

  lemma CourseSays(k: Task, deeds: seq<Deed>, world: World, view: seq<Pkt>, done: seq<byte>, part: seq<byte>)
    requires Course(k, deeds, world, view, done) && 0 < |part| <= k.packetSize && done + part <= k.plan
    requires (k.held && deeds == []) || Full(k, world, done, part)
    ensures var d := Say(k.id, k.streamId, part);
            && Course(k, deeds + [d], Done(world, d), view, done + if NextSend(world.sends) == Sent then part else [])
            && Spoke(k.world, deeds + [d], NextSend(world.sends))
  {
    hide Done, Window, Proper, Parts, Flatten, ReadLinks;
    var d := Say(k.id, k.streamId, part);
    AfterMore(k.world, deeds, d);
    ProperMore(k, deeds, d);
    PartsMore(k.world, deeds, d);
    FlattenMore(Parts(k.world, deeds), part);
    assert Parts(k.world, deeds) + [] == Parts(k.world, deeds);
    assert done + [] == done && Linked(k.world, deeds) + [] == Linked(k.world, deeds);
    assert (deeds + [d])[..|deeds|] == deeds;
  }

  lemma WindowIs(s: Session, c: Channel)
    requires s.IdsOk() && c in s.channels
    ensures Window(s.World(), c.localId) == c.localWindow
  {
    s.Finds(c);
    IdKept(c);
  }

  /** Packets were added to the brigade, and none taken out. */
  ghost predicate OnlyMore(before: Roll, after: Roll) {
    Since(before, after) && before.nodes <= after.nodes
  }

  /** A packet is read in the hope of window. */
  method ReadForWindow(s: Session, c: Channel, ghost k: Task, ghost deeds: seq<Deed>, ghost done: seq<byte>)
    returns (rc: ReadCode)
    requires s.Valid() && s.connected && c in s.channels && c.localWindow == 0 && k.id == c.localId && done != k.plan
    requires Course(k, deeds, s.World(), s.packets.view, done)
    modifies s`sends, s`sent, s`packAddState, s`packAddChannel, s`connected, s`incoming, s`pending
    modifies s.packets, s.packets.Objects()
    modifies s.channels`remoteWindow, s.channels`adjustQueue, s.channels`adjustState, s.channels`adjustAdjust,
             s.channels`remoteEof, s.channels`remoteClose, s.channels`localWindow, s.channels`exitStatus
    ensures s.Valid() && (rc != Fail ==> s.connected)
    ensures OnlyMore(old(s.packets.Rolled()), s.packets.Rolled())
    ensures fresh(s.packets.Objects() - old(s.packets.Objects()))
    ensures Course(k, deeds + [Listen], s.World(), s.packets.view, done) && Answered(k.world, deeds + [Listen], rc)
    ensures Left(s.World()) <= Left(old(s.World())) && (rc.Type? ==> Left(s.World()) < Left(old(s.World())))
    ensures rc == Type(CHANNEL_WINDOW_ADJUST) || c.localWindow == 0
  {
    hide Session.Valid, Session.World, Course, Answered, Listened, ReadAnswer, ReadLinks, Since, Window, Left;
    Here(s, c);
    CourseListens(k, deeds, s.World(), s.packets.view, done);
    ListenedLess(s.World());
    if ReadAnswer(s.World()) != Type(CHANNEL_WINDOW_ADJUST) {
      WindowKept(s.World(), c.localId);
    }
    rc := s.PacketRead();
    Here(s, c);
  }

  lemma Here(s: Session, c: Channel)
    requires s.Valid() && c in s.channels
    ensures Window(s.World(), c.localId) == c.localWindow && s.World().connected == s.connected
    ensures Find(s.World().views, c.localId).Some?
  {
    WindowIs(s, c);
    s.Finds(c);
  }

  /** Lines 1789-1811: packets are read until there is window. */
  method AwaitWindow(s: Session, c: Channel, ghost k: Task, ghost deeds: seq<Deed>, ghost done: seq<byte>)
    returns (res: Option<Code>, ghost deeds': seq<Deed>)
    requires s.Valid() && s.connected && c in s.channels && c.writeState == Allocated && k.id == c.localId
    requires Course(k, deeds, s.World(), s.packets.view, done) && done != k.plan
    modifies s`sends, s`sent, s`packAddState, s`packAddChannel, s`connected, s`incoming, s`pending
    modifies s.packets, s.packets.Objects(), c`writeState
    modifies s.channels`remoteWindow, s.channels`adjustQueue, s.channels`adjustState, s.channels`adjustAdjust,
             s.channels`remoteEof, s.channels`remoteClose, s.channels`localWindow, s.channels`exitStatus
    ensures s.Valid()
    ensures OnlyMore(old(s.packets.Rolled()), s.packets.Rolled())
    ensures fresh(s.packets.Objects() - old(s.packets.Objects()))
    ensures Course(k, deeds', s.World(), s.packets.view, done)
    ensures match res
            case None => s.connected && c.localWindow > 0 && c.writeState == Allocated
            case Some(code) =>
              || (code == Eagain && c.writeState == Allocated && NoWindow(s, c, k, deeds'))
              || (code == Error && c.writeState == Idle && Answered(k.world, deeds', Fail))
  {
    hide Session.Valid, Session.World, Course, Answered, Left;
    deeds' := deeds;
    while c.localWindow <= 0
      invariant s.Valid() && s.connected && c.writeState == Allocated
      invariant OnlyMore(old(s.packets.Rolled()), s.packets.Rolled())
      invariant fresh(s.packets.Objects() - old(s.packets.Objects()))
      invariant Course(k, deeds', s.World(), s.packets.view, done)
      decreases Left(s.World())
    {
      var rc := ReadForWindow(s, c, k, deeds', done);
      deeds' := deeds' + [Listen];
      if rc == Fail {
        c.writeState := Idle;
        return Some(Code.Error), deeds';
      }
      if rc == Blocked || (rc == Type(0) && !s.socketBlock) {
        return Some(Code.Eagain), deeds';
      }
    }
    return None, deeds';
  }

  /** There is no window, and no packet could be had that might bring some. */
  ghost predicate NoWindow(s: Session, c: Channel, k: Task, deeds: seq<Deed>)
    reads s`socketBlock, c`localWindow
  {
    c.localWindow == 0 && (Answered(k.world, deeds, Blocked) || (!s.socketBlock && Answered(k.world, deeds, Type(0))))
  }

  /** Lines 1813-1841: as much of the rest as window and packet size allow makes a message. */
  method Cut(c: Channel, streamId: u32, rest: seq<byte>) returns (ghost part: seq<byte>)
    requires 0 < |rest| < TWO32 && c.localWindow > 0 && c.localPacketSize > 0
    modifies c`writeState, c`writePacket, c`writeBufwrite
    ensures StandsAt(c, streamId, Holding(part)) && part <= rest && |part| <= c.localWindow
    ensures |part| == |rest| || |part| == c.localWindow || |part| == c.localPacketSize
    ensures var m, head := c.writePacket, if streamId == 0 then 9 else 13;
            && |m| == head + |part| && m[head..] == part
            && U32Of(m[1..5]) == c.remoteId && U32Of(m[head - 4..head]) == |part|
            && if streamId == 0 then m[0] == 94 else m[0] == 95 && U32Of(m[5..9]) == streamId
  {
    hide U32Of, U32Bytes;
    c.writeBufwrite := |rest|;
    var head: seq<byte> := [CHANNEL_DATA];
    if streamId != 0 {
      head := [CHANNEL_EXTENDED_DATA];
    }
    head := head + U32Bytes(c.remoteId);
    if streamId != 0 {
      head := head + U32Bytes(streamId);
    }
    if c.writeBufwrite > c.localWindow {
      c.writeBufwrite := c.localWindow;
    }
    if c.writeBufwrite > c.localPacketSize {
      c.writeBufwrite := c.localPacketSize;
    }
    c.writePacket := head + U32Bytes(c.writeBufwrite) + rest[..c.writeBufwrite];
    part := rest[..c.writeBufwrite];
    DataMessageFields(c.remoteId, streamId, part);
    c.writeState := Created;
  }

  lemma SaidIs(w: World, w': World, k: nat, id: u32, streamId: u32, part: seq<byte>)
    requires Find(w.views, id) == Some(k) && |part| < TWO32 && w'.sends == Later(w.sends)
    requires var v := w.views[k];
             if NextSend(w.sends) == Sent
             then w'.views == w.views[k := v.(localWindow := Sub32(v.localWindow, |part|))] &&
                  w'.sent == w.sent + [DataMessage(v.remoteId, streamId, part)]
             else w'.views == w.views && w'.sent == w.sent
    requires w'.incoming == w.incoming && w'.connected == w.connected && w'.adding == w.adding
    ensures w' == Done(w, Say(id, streamId, part))
  {
  }

  /** Lines 1859-1867: the window is charged. */
  method Spend(s: Session, c: Channel)
    requires s.IdsOk() && c in s.channels && c.writeBufwrite < TWO32
    modifies c`localWindow, c`writeState, c`writeBufwrote
    ensures var k, v := Find(old(s.Views()), c.localId), old(c.View());
            && k.Some? && old(s.Views())[k.value] == v
            && s.Views() == old(s.Views())[k.value := v.(localWindow := Sub32(v.localWindow, c.writeBufwrite))]
    ensures c.writeState == Allocated && c.writeBufwrote == old(c.writeBufwrote) + c.writeBufwrite
  {
    hide Session.IdsOk, Channel.Flow, Channel.View, Find, Sub32, ViewsOf, FindIn;
    s.Finds(c);
    ghost var before, k := s.Views(), Find(s.Views(), c.localId);
    ViewIs(c);
    c.localWindow := Sub32(c.localWindow, c.writeBufwrite);
    c.writeBufwrote := c.writeBufwrote + c.writeBufwrite;
    c.writeState := Allocated;
    ViewIs(c);
    s.ViewOthers(before, c, k.value);
    s.ViewsChanged(before, k, c.View());
  }

  /** Lines 1844-1869: the message is sent and the window charged. */
  method SendPart(s: Session, c: Channel, streamId: u32, ghost part: seq<byte>) returns (w: WriteOutcome)
    requires s.IdsOk() && c in s.channels && StandsAt(c, streamId, Holding(part)) && |part| < TWO32
    modifies s`sends, s`sent, c`localWindow, c`writeState, c`writePacket, c`writeBufwrote
    ensures w == NextSend(old(s.sends)) && s.World() == Done(old(s.World()), Say(c.localId, streamId, part))
    ensures w == Again ==> StandsAt(c, streamId, Holding(part))
    ensures w == Failed ==> c.writeState == Idle
    ensures w == Sent ==> c.writeState == Allocated
    ensures c.writeBufwrote == old(c.writeBufwrote) + if w == Sent then |part| else 0
  {
    hide Session.IdsOk, Channel.View, DataMessage, Done, Find, Sub32, Session.Views;
    s.Finds(c);
    IdKept(c);
    ghost var w0, k := s.World(), Find(s.Views(), c.localId);
    w := s.PacketWrite(c.writePacket);
    if w == Failed {
      c.writePacket := [];
      c.writeState := Idle;
    } else if w == Sent {
      Spend(s, c);
    }
    SaidIs(w0, s.World(), k.value, c.localId, streamId, part);
  }

  /** In the course of a call: `done` is sent, `rest` is what buffer pointer and length say. */
  ghost predicate Going(plan: seq<byte>, done: seq<byte>, rest: seq<byte>, at: Standing) {
    && !at.Fresh? && Sits(rest, at) && plan == done + Plan(rest, at)
  }

  lemma GoingCut(k: Task, w: World, done: seq<byte>, rest: seq<byte>, part: seq<byte>)
    requires Going(k.plan, done, rest, Waiting) && part <= rest && 0 < |part| <= Window(w, k.id)
    requires |part| == |rest| || |part| == Window(w, k.id) || |part| == k.packetSize
    ensures Going(k.plan, done, rest, Holding(part)) && Full(k, w, done, part)
  {
    hide Window;
    if |part| == |rest| {
      assert part == rest;
    }
  }

  lemma GoingHeld(plan: seq<byte>, done: seq<byte>, rest: seq<byte>, at: Standing)
    requires Going(plan, done, rest, at)
    ensures at != Fresh && (at.Holding? ==> 0 < |at.part| <= |rest| && done + at.part <= plan)
    ensures at == Waiting && rest != [] ==> done != plan
  {
    if at.Holding? {
      assert plan == (done + at.part) + rest[|at.part|..];
    }
  }

  lemma GoingSent(plan: seq<byte>, done: seq<byte>, rest: seq<byte>, part: seq<byte>)
    requires Going(plan, done, rest, Holding(part))
    ensures Going(plan, done + part, rest[|part|..], Waiting)
  {
  }

  lemma GoingStops(buf: seq<byte>, from: Standing, done: seq<byte>, rest: seq<byte>, at: Standing)
    requires Sits(buf, from) && Going(Plan(buf, from), done, rest, at) && |rest| <= |buf|
    ensures Moves(buf, from, done, at)
    ensures at == Waiting && rest == [] ==> Moves(buf, from, done, Fresh)
  {
    var plan := Plan(buf, from);
    assert plan[|done|..] == Plan(rest, at);
  }

  /** A message is at hand after this, or the call is over. */
  method Prepare(s: Session, c: Channel, streamId: u32, rest: seq<byte>, ghost done: seq<byte>,
                 ghost at: Standing, ghost k: Task, ghost deeds: seq<Deed>)
    returns (stop: Option<Code>, ghost part: seq<byte>, ghost deeds': seq<Deed>)
    requires s.Valid() && s.connected && c in s.channels && c.localPacketSize > 0 && 0 < |rest| < TWO32
    requires StandsAt(c, streamId, at) && Going(k.plan, done, rest, at)
    requires k.id == c.localId && k.packetSize == c.localPacketSize
    requires Course(k, deeds, s.World(), s.packets.view, done) && (at.Holding? ==> k.held && deeds == [])
    modifies s`sends, s`sent, s`packAddState, s`packAddChannel, s`connected, s`incoming, s`pending
    modifies s.packets, s.packets.Objects()
    modifies s.channels`remoteWindow, s.channels`adjustQueue, s.channels`adjustState, s.channels`adjustAdjust,
             s.channels`remoteEof, s.channels`remoteClose, s.channels`localWindow, s.channels`exitStatus
    modifies c`writeState, c`writePacket, c`writeBufwrite
    ensures s.Valid() && Course(k, deeds', s.World(), s.packets.view, done)
    ensures OnlyMore(old(s.packets.Rolled()), s.packets.Rolled())
    ensures fresh(s.packets.Objects() - old(s.packets.Objects()))
    ensures stop == None ==> s.connected && StandsAt(c, streamId, Holding(part)) && Going(k.plan, done, rest, Holding(part))
    ensures stop == None ==> 0 < |part| <= |rest| && |part| == c.writeBufwrite <= c.localPacketSize && c.writeState == Created
    ensures stop == None ==> done + part <= k.plan && ((k.held && deeds' == []) || Full(k, s.World(), done, part))
    ensures stop.Some? ==>
              || (stop.value == Eagain && at == Waiting && c.writeState == Allocated && NoWindow(s, c, k, deeds'))
              || (stop.value == Error && c.writeState == Idle && Answered(k.world, deeds', Fail))
  {
    hide Session.Valid, Session.World, Course, NoWindow, Answered, DataMessage, Going, Full, Window;
    deeds' := deeds;
    GoingHeld(k.plan, done, rest, at);
    if c.writeState == Allocated {
      stop, deeds' := AwaitWindow(s, c, k, deeds, done);
      if stop.Some? {
        return stop, [], deeds';
      }
      Here(s, c);
      part := Cut(c, streamId, rest);
      GoingCut(k, s.World(), done, rest, part);
      GoingHeld(k.plan, done, rest, Holding(part));
    } else {
      stop, part := None, at.part;
    }
  }

  /** Why a write is left unfinished: for want of window, or with its message interrupted. */
  ghost predicate Excused(s: Session, c: Channel, to: Standing, k: Task, deeds: seq<Deed>)
    reads s`socketBlock, c`localWindow
  {
    if to == Waiting then NoWindow(s, c, k, deeds) else Spoke(k.world, deeds, Again)
  }

  /** The connection failed the call. */
  ghost predicate Refused(k: Task, deeds: seq<Deed>) {
    Answered(k.world, deeds, Fail) || Spoke(k.world, deeds, Failed)
  }

  /** The message at hand goes out. */
  method Push(s: Session, c: Channel, streamId: u32, ghost part: seq<byte>, ghost done: seq<byte>, ghost k: Task,
              ghost deeds: seq<Deed>) returns (w: WriteOutcome, ghost done': seq<byte>, ghost deeds': seq<Deed>)
    requires s.Valid() && c in s.channels && StandsAt(c, streamId, Holding(part)) && |part| < TWO32
    requires k.id == c.localId && k.streamId == streamId && k.packetSize == c.localPacketSize
    requires Course(k, deeds, s.World(), s.packets.view, done) && done + part <= k.plan
    requires (k.held && deeds == []) || Full(k, s.World(), done, part)
    modifies s`sends, s`sent, c`localWindow, c`writeState, c`writePacket, c`writeBufwrote
    ensures s.Valid() && Course(k, deeds', s.World(), s.packets.view, done') && Spoke(k.world, deeds', w)
    ensures done' == if w == Sent then done + part else done
    ensures w == Again ==> StandsAt(c, streamId, Holding(part))
    ensures w == Failed ==> c.writeState == Idle
    ensures w == Sent ==> c.writeState == Allocated
    ensures c.writeBufwrote == old(c.writeBufwrote) + if w == Sent then |part| else 0
    ensures c.writeBufwrite == old(c.writeBufwrite)
  {
    hide List.Valid, Session.World, Session.IdsOk, Session.AllSteady, Session.InputOk, Course, Spoke, Done;
    hide DataMessage, Window;
    WindowIs(s, c);
    SendsIs(s);
    CourseSays(k, deeds, s.World(), s.packets.view, done, part);
    assert done + [] == done;
    w := SendPart(s, c, streamId, part);
    done', deeds' := if w == Sent then done + part else done, deeds + [Say(k.id, k.streamId, part)];
  }

  lemma SendsIs(s: Session)
    ensures s.World().sends == s.sends
  {
  }

  /** One message is made ready and sent, as far as that can be. */
  method Deliver(s: Session, c: Channel, streamId: u32, rest: seq<byte>, ghost at: Standing,
                 ghost done: seq<byte>, ghost k: Task, ghost deeds: seq<Deed>)
    returns (stop: Option<Code>, ghost to: Standing, ghost done': seq<byte>, ghost deeds': seq<Deed>)
    requires s.Valid() && s.connected && c in s.channels && c.localPacketSize > 0 && 0 < |rest| < TWO32
    requires k.id == c.localId && k.streamId == streamId && k.packetSize == c.localPacketSize
    requires StandsAt(c, streamId, at) && Going(k.plan, done, rest, at)
    requires Course(k, deeds, s.World(), s.packets.view, done) && (at.Holding? ==> k.held && deeds == [])
    modifies s`sends, s`sent, s`packAddState, s`packAddChannel, s`connected, s`incoming, s`pending
    modifies s.packets, s.packets.Objects()
    modifies s.channels`remoteWindow, s.channels`adjustQueue, s.channels`adjustState, s.channels`adjustAdjust,
             s.channels`remoteEof, s.channels`remoteClose, s.channels`localWindow, s.channels`exitStatus
    modifies c`writeState, c`writePacket, c`writeBufwrite, c`writeBufwrote
    ensures s.Valid() && Course(k, deeds', s.World(), s.packets.view, done')
    ensures OnlyMore(old(s.packets.Rolled()), s.packets.Rolled())
    ensures fresh(s.packets.Objects() - old(s.packets.Objects()))
    ensures c.writeBufwrote == old(c.writeBufwrote) + |done'| - |done|
    ensures stop == None ==>
              && s.connected && 0 < c.writeBufwrite <= |rest| && to == Waiting && StandsAt(c, streamId, to)
              && Going(k.plan, done', rest[c.writeBufwrite..], to)
    ensures stop == Some(Eagain) ==>
              StandsAt(c, streamId, to) && Going(k.plan, done', rest, to) && Excused(s, c, to, k, deeds')
    ensures stop.Some? && stop != Some(Eagain) ==> stop == Some(Error) && c.writeState == Idle && Refused(k, deeds')
  {
    hide Session.Valid, Session.World, Course, NoWindow, Answered, Spoke, Going, DataMessage, Loaded;
    done', to := done, at;
    ghost var part;
    stop, part, deeds' := Prepare(s, c, streamId, rest, done, at, k, deeds);
    if stop.Some? {
      return;
    }
    GoingSent(k.plan, done, rest, part);
    var w;
    w, done', deeds' := Push(s, c, streamId, part, done, k, deeds');
    to := if w == Sent then Waiting else Holding(part);
    stop := match w
      case Sent => None
      case Again => Some(Eagain)
      case Failed => Some(Error);
  }

  /** The loop of lines 1774-1878. */
  method WriteOn(s: Session, c: Channel, streamId: u32, buf: seq<byte>, ghost from: Standing, ghost start: Standing,
                 ghost k: Task) returns (res: Code, ghost to: Standing, ghost done: seq<byte>, ghost deeds: seq<Deed>)
    requires s.Valid() && s.connected && c in s.channels && c.localPacketSize > 0 && |buf| < TWO32
    requires Sits(buf, from)
    requires k == Task(c.localId, streamId, c.localPacketSize, Plan(buf, from), from.Holding?, s.World(), s.packets.view)
    requires start == (if from == Fresh then Waiting else from) && StandsAt(c, streamId, start)
    modifies s`sends, s`sent, s`packAddState, s`packAddChannel, s`connected, s`incoming, s`pending
    modifies s.packets, s.packets.Objects()
    modifies s.channels`remoteWindow, s.channels`adjustQueue, s.channels`adjustState, s.channels`adjustAdjust,
             s.channels`remoteEof, s.channels`remoteClose, s.channels`localWindow, s.channels`exitStatus
    modifies c`writeState, c`writePacket, c`writeBufwrite, c`writeBufwrote
    ensures s.Valid() && Course(k, deeds, s.World(), s.packets.view, done)
    ensures OnlyMore(old(s.packets.Rolled()), s.packets.Rolled())
    ensures fresh(s.packets.Objects() - old(s.packets.Objects()))
    ensures res != Error ==> Moves(buf, from, done, to)
    ensures res.Ok? ==> to == Fresh && c.writeState == Allocated && res.n == c.writeBufwrote
    ensures res == Eagain ==> to != Fresh && StandsAt(c, streamId, to) && Excused(s, c, to, k, deeds)
    ensures res == Error ==> c.writeState == Idle && Refused(k, deeds)
    ensures c.writeBufwrote == old(c.writeBufwrote) + |done|
  {
    hide Session.Valid, Session.World, Course, Going, Moves, Plan, Sits, Loaded, Excused, Refused;
    done, deeds, to := [], [], Fresh;
    CourseStarts(k);
    ghost var at := start;
    var rest := buf;
    GoingStarts(buf, from, at);
    while |rest| > 0
      invariant s.Valid() && s.connected && |rest| <= |buf| && StandsAt(c, streamId, at)
      invariant Course(k, deeds, s.World(), s.packets.view, done)
      invariant OnlyMore(old(s.packets.Rolled()), s.packets.Rolled())
      invariant fresh(s.packets.Objects() - old(s.packets.Objects()))
      invariant Going(Plan(buf, from), done, rest, at)
      invariant at != Fresh && (rest == [] ==> at == Waiting) && (at.Holding? ==> k.held && deeds == [])
      invariant c.writeBufwrote == old(c.writeBufwrote) + |done|
      decreases |rest|
    {
      var stop;
      stop, at, done, deeds := Deliver(s, c, streamId, rest, at, done, k, deeds);
      if stop.Some? {
        if stop == Some(Eagain) {
          GoingStops(buf, from, done, rest, at);
          GoingOn(Plan(buf, from), done, rest, at);
        }
        return stop.value, at, done, deeds;
      }
      rest := rest[c.writeBufwrite..];
    }
    GoingStops(buf, from, done, rest, at);
    return Ok(c.writeBufwrote), Fresh, done, deeds;
  }

  lemma GoingOn(plan: seq<byte>, done: seq<byte>, rest: seq<byte>, at: Standing)
    requires Going(plan, done, rest, at)
    ensures at != Fresh
  {
  }

  /** The window is what it was and the credit that came in, less the bytes sent; and these were never
      more, unless a message cut before has met a smaller window. */
  ghost predicate Charged(k: Task, deeds: seq<Deed>, before: u32, spent: nat, after: u32) {
    var credit := Credits(k.world, k.id, deeds);
    && after == (before + credit - spent) % TWO32
    && (!(k.held && deeds != [] && deeds[0].Say? && |deeds[0].part| > before) ==> after + spent <= before + credit)
  }

  lemma CourseCharges(s: Session, c: Channel, k: Task, before: u32, done: seq<byte>, deeds: seq<Deed>)
    requires s.Valid() && c in s.channels && k.id == c.localId && Course(k, deeds, s.World(), s.packets.view, done)
    requires Find(k.world.views, k.id).Some? && before == Window(k.world, k.id)
    ensures Charged(k, deeds, before, |done|, c.localWindow)
  {
    hide Session.Valid, Session.World, Proper, Parts, Flatten, After, Window, Credits;
    Here(s, c);
    Accounts(k, deeds);
    if !(k.held && deeds != [] && deeds[0].Say? && |deeds[0].part| > before) {
      SentWithinCredit(k, deeds, |deeds|);
      assert deeds[..|deeds|] == deeds;
    }
  }

  /** `libssh2_channel_write_ex`, called anew or repeated on the same buffer. Its deeds are data messages
      of this channel and stream, each as large as packet size, window and what is left allow, and, while
      there is no window, packets read; the session is then what they make of it, and `done` what went out.
      It fails only on a closed channel, or when the connection does, and leaves off only for want of
      window or with a message interrupted. */
  method WriteEx(s: Session, c: Channel, streamId: u32, buf: seq<byte>, ghost from: Standing)
    returns (res: Code, ghost to: Standing, ghost done: seq<byte>, ghost deeds: seq<Deed>)
    requires s.Valid() && s.connected && c in s.channels && c.localPacketSize > 0 && |buf| < TWO32
    requires StandsAt(c, streamId, from) && Sits(buf, from)
    modifies s`sends, s`sent, s`packAddState, s`packAddChannel, s`connected, s`incoming, s`pending
    modifies s.packets, s.packets.Objects()
    modifies s.channels`remoteWindow, s.channels`adjustQueue, s.channels`adjustState, s.channels`adjustAdjust,
             s.channels`remoteEof, s.channels`remoteClose, s.channels`localWindow, s.channels`exitStatus
    modifies c`writeState, c`writePacket, c`writeBufwrite, c`writeBufwrote
    ensures var k := Task(c.localId, streamId, c.localPacketSize, Plan(buf, from), from.Holding?, old(s.World()), old(s.packets.view));
            && Course(k, deeds, s.World(), s.packets.view, done)
            && (res == Eagain ==> Excused(s, c, to, k, deeds))
            && (res == Error ==> (from == Fresh && c.localClose && deeds == []) || Refused(k, deeds))
            && Charged(k, deeds, old(c.localWindow), |done|, c.localWindow)
    ensures s.Valid()
    ensures OnlyMore(old(s.packets.Rolled()), s.packets.Rolled())
    ensures fresh(s.packets.Objects() - old(s.packets.Objects()))
    ensures res != Error ==> StandsAt(c, streamId, to) && Moves(buf, from, done, to)
    ensures res != Error ==> (res.Ok? <==> to == Fresh)
    ensures res.Ok? ==> res.n == c.writeBufwrote
    ensures res == Error ==> c.writeState == Idle
    ensures c.writeBufwrote == (if from == Fresh then 0 else old(c.writeBufwrote)) + |done|
    ensures from == Fresh && c.localClose ==> res == Error
  {
    hide Session.Valid, Session.World, Course, Moves, Plan, Sits, Loaded, Excused, Refused, Charged, Window, Find;
    ghost var before := c.localWindow;
    ghost var k := Task(c.localId, streamId, c.localPacketSize, Plan(buf, from), from.Holding?, s.World(), s.packets.view);
    Here(s, c);
    if c.writeState == Idle {
      c.writeBufwrote := 0;
      if c.localClose {
        CourseStarts(k);
        CourseCharges(s, c, k, c.localWindow, [], []);
        return Error, Fresh, [], [];
      }
      c.writeState := Allocated;
    }
    res, to, done, deeds := WriteOn(s, c, streamId, buf, from, if from == Fresh then Waiting else from, k);
    CourseCharges(s, c, k, before, done, deeds);
    if res.Ok? {
      c.writePacket := [];
      c.writeState := Idle;
    }
  }

  lemma GoingStarts(buf: seq<byte>, from: Standing, at: Standing)
    requires Sits(buf, from) && at == if from == Fresh then Waiting else from
    ensures Going(Plan(buf, from), [], buf, at) && (buf == [] ==> at == Waiting)
  {
  }

  /** The credit that window adjustments among the messages bring a channel. */
  function CreditIn(w: World, id: u32): nat {
    var next := NextIn(w.incoming);
    if w.adding.Some? || !w.connected || !next.Payload? || !WellFormed(next.data) then 0
    else if next.data[0] == CHANNEL_WINDOW_ADJUST && IdOf(next.data) == id then U32Of(next.data[5..9])
    else 0
  }

  function Credits(w: World, id: u32, deeds: seq<Deed>): nat {
    if deeds == [] then 0 else
    var front, last := deeds[..|deeds| - 1], deeds[|deeds| - 1];
    Credits(w, id, front) + if last.Listen? then CreditIn(After(w, front), id) else 0
  }

  /** The bytes of a channel's messages that went out. */
  function Spent(w: World, id: u32, deeds: seq<Deed>): nat {
    if deeds == [] then 0 else
    var front, last := deeds[..|deeds| - 1], deeds[|deeds| - 1];
    Spent(w, id, front) +
    if last.Say? && last.id == id && NextSend(After(w, front).sends) == Sent then |last.part| else 0
  }

  /** The peer's number of the channel. */
  function Peer(w: World, id: u32): u32 {
    var k := Find(w.views, id);
    if k.Some? then w.views[k.value].remoteId else 0
  }

  /** Where and which the channel is. */
  predicate Same(w: World, w': World, id: u32) {
    Find(w'.views, id) == Find(w.views, id) && Peer(w', id) == Peer(w, id)
  }

  lemma HeardWindow(v: Chan, data: seq<byte>)
    requires WellFormed(data)
    ensures Heard(v, data).localWindow ==
              if data[0] == CHANNEL_WINDOW_ADJUST then Add32(v.localWindow, U32Of(data[5..9])) else v.localWindow
  {
    hide Receive, U32Of, Add32;
  }

  /** One channel's value is replaced. */
  lemma Replaced(w: World, w': World, i: nat, v: Chan, id: u32)
    requires i < |w.views| && w'.views == w.views[i := v]
    requires v.localId == w.views[i].localId && v.remoteId == w.views[i].remoteId
    ensures Same(w, w', id)
    ensures Window(w', id) == if Find(w.views, id) == Some(i) then v.localWindow else Window(w, id)
  {
    FindKept(w.views, i, v, id);
  }

  lemma RefundedWindow(w: World, k: nat, a: u32, id: u32)
    requires k < |w.views|
    ensures Same(w, Refunded(w, k, a), id) && Window(Refunded(w, k, a), id) == Window(w, id)
    ensures Spoken(Refunded(w, k, a).sent) == Spoken(w.sent)
  {
    hide Adjust, Writes, AdjustMessage;
    var v, r := w.views[k], Adjustment(w, k, a);
    Replaced(w, Refunded(w, k, a), k, v.(flow := r.state), id);
    if r.announced.Some? {
      SpokenMore(w.sent, AdjustMessage(v.remoteId, r.announced.value));
    } else {
      assert w.sent + [] == w.sent;
    }
  }

  lemma ToldWindow(w: World, data: seq<byte>, id: u32)
    requires WellFormed(data)
    ensures Same(w, Told(w, data), id) && Spoken(Told(w, data).sent) == Spoken(w.sent)
    ensures Window(Told(w, data), id) ==
              if data[0] == CHANNEL_WINDOW_ADJUST && Find(w.views, id).Some? && IdOf(data) == id
              then Add32(Window(w, id), U32Of(data[5..9])) else Window(w, id)
    ensures data[0] == CHANNEL_WINDOW_ADJUST ==> Told(w, data).adding == w.adding
  {
    hide Heard, Refunded, TakenForAgain, IdOf, U32Of, Add32, Spoken;
    var k := Find(w.views, IdOf(data));
    if k.Some? {
      if Ignores(w.views[k.value], data) {
        RefundedWindow(w, k.value, |data| - 13, id);
      } else {
        HeardWindow(w.views[k.value], data);
        Replaced(w, Told(w, data), k.value, Heard(w.views[k.value], data), id);
      }
    }
  }

  /** Reading a packet adds to a sending window just the credit that is in it. */
  lemma HeardBy(w: World, id: u32)
    ensures Same(w, Listened(w), id) && Spoken(Listened(w).sent) == Spoken(w.sent)
    ensures Find(w.views, id).Some? ==> Window(Listened(w), id) == Add32(Window(w, id), CreditIn(w, id))
    ensures CreditIn(w, id) > 0 ==> ReadAnswer(w) == Type(CHANNEL_WINDOW_ADJUST)
  {
    hide Heard, Refunded, TakenForAgain, IdOf, U32Of, Told, Spoken;
    if w.adding.Some? {
      var data := w.adding.value;
      var k := Find(w.views, IdOf(data));
      if k.Some? && 13 <= |data| < TWO32 {
        RefundedWindow(w, k.value, |data| - 13, id);
      }
    } else if w.connected && NextIn(w.incoming).Payload? && WellFormed(NextIn(w.incoming).data) {
      ToldWindow(w.(incoming := Later(w.incoming)), NextIn(w.incoming).data, id);
    }
  }

  /** Only a window adjustment from the peer moves a sending window. */
  lemma WindowKept(w: World, id: u32)
    requires ReadAnswer(w) != Type(CHANNEL_WINDOW_ADJUST)
    ensures Window(Listened(w), id) == Window(w, id)
  {
    hide Listened, ReadAnswer, CreditIn;
    HeardBy(w, id);
  }

  lemma SaidBy(w: World, id: u32, streamId: u32, part: seq<byte>)
    requires Find(w.views, id).Some? && |part| < TWO32
    ensures var w', sent := Done(w, Say(id, streamId, part)), NextSend(w.sends) == Sent;
            && Same(w, w', id)
            && Window(w', id) == Sub32(Window(w, id), if sent then |part| else 0)
            && Spoken(w'.sent) == Spoken(w.sent) + if sent then [DataMessage(Peer(w, id), streamId, part)] else []
  {
    hide Spoken, DataMessage, Sub32;
    var k := Find(w.views, id).value;
    var v := w.views[k];
    if NextSend(w.sends) == Sent {
      Replaced(w, Done(w, Say(id, streamId, part)), k, v.(localWindow := Sub32(v.localWindow, |part|)), id);
      SpokenMore(w.sent, DataMessage(v.remoteId, streamId, part));
    } else {
      LessNothing(v.localWindow);
    }
  }

  lemma LessNothing(a: u32)
    ensures Sub32(a, 0) == a
  {
  }

  /** The messages that carry these payloads. */
  ghost function Messages(id: u32, streamId: u32, parts: seq<seq<byte>>): seq<seq<byte>> {
    if parts == [] then [] else
    var front, last := parts[..|parts| - 1], parts[|parts| - 1];
    Messages(id, streamId, front) + if |last| < TWO32 then [DataMessage(id, streamId, last)] else []
  }

  lemma MessagesMore(id: u32, streamId: u32, parts: seq<seq<byte>>, part: seq<byte>)
    requires |part| < TWO32
    ensures Messages(id, streamId, parts + [part]) == Messages(id, streamId, parts) + [DataMessage(id, streamId, part)]
  {
    assert (parts + [part])[..|parts|] == parts;
  }

  /** The credit that came in, and the bytes that went out, up to now: the window is what they make of
      it, and the channel is where it was. */
  ghost predicate Accounted(k: Task, deeds: seq<Deed>) {
    var w, id := After(k.world, deeds), k.id;
    var spent, credit := |Flatten(Parts(k.world, deeds))|, Credits(k.world, id, deeds);
    && Same(k.world, w, id)
    && Window(w, id) == (Window(k.world, id) + credit - spent) % TWO32
    && Spoken(w.sent) == Spoken(k.world.sent) + Messages(Peer(k.world, id), k.streamId, Parts(k.world, deeds))
  }

  lemma ProperPrefix(k: Task, deeds: seq<Deed>, n: nat)
    requires Proper(k, deeds) && n < |deeds|
    ensures Proper(k, deeds[..n]) && Rightly(k, After(k.world, deeds[..n]), Flatten(Parts(k.world, deeds[..n])), deeds[n], n == 0)
  {
    hide After, Rightly, Parts, Flatten;
    var front := deeds[..n];
    forall i | 0 <= i < |front|
      ensures Rightly(k, After(k.world, front[..i]), Flatten(Parts(k.world, front[..i])), front[i], i == 0)
    {
      assert front[..i] == deeds[..i];
    }
  }

  lemma WholeMod(a: int, q: int)
    ensures (a - q * TWO32) % TWO32 == a % TWO32
  {
  }

  lemma AddMod(a: int, x: nat)
    ensures (a % TWO32 + x) % TWO32 == (a + x) % TWO32 && (a % TWO32 - x) % TWO32 == (a - x) % TWO32
  {
    var q := a / TWO32;
    assert a % TWO32 == a - q * TWO32;
    WholeMod(a + x, q);
    WholeMod(a - x, q);
  }

  /** At every moment of a call the window is what it was, and the credit heard, less the bytes sent,
      modulo 2^32; the messages sent, window adjustments apart, are those that carry them. */
  lemma {:induction false} Accounts(k: Task, deeds: seq<Deed>)
    requires Proper(k, deeds) && Find(k.world.views, k.id).Some?
    ensures Accounted(k, deeds)
  {
    hide Find, DataMessage, Done, Proper, CreditIn, Spoken, Rightly, Window;
    if deeds == [] {
      assert Spoken(k.world.sent) + [] == Spoken(k.world.sent);
    } else {
      var n := |deeds| - 1;
      ProperPrefix(k, deeds, n);
      Accounts(k, deeds[..n]);
      StepAccounts(k, deeds[..n], deeds[n]);
      assert deeds == deeds[..n] + [deeds[n]];
    }
  }

  lemma StepAccounts(k: Task, front: seq<Deed>, d: Deed)
    requires Accounted(k, front) && Find(k.world.views, k.id).Some? && Rightly(k, After(k.world, front), Flatten(Parts(k.world, front)), d, front == [])
    ensures Accounted(k, front + [d])
  {
    hide Find, DataMessage, Done, CreditIn, Spoken, Flatten, Messages, Parts, Credits, Window;
    var w, id := After(k.world, front), k.id;
    var parts, credit := Parts(k.world, front), Credits(k.world, id, front);
    AfterMore(k.world, front, d);
    PartsMore(k.world, front, d);
    CreditsMore(k.world, id, front, d);
    assert parts + [] == parts;
    if d == Listen {
      ListenDone(w);
      HeardBy(w, id);
      AddMod(Window(k.world, id) + credit - |Flatten(parts)|, CreditIn(w, id));
    } else {
      SaidBy(w, id, d.streamId, d.part);
      FlattenMore(parts, d.part);
      MessagesMore(Peer(k.world, id), k.streamId, parts, d.part);
      AddMod(Window(k.world, id) + credit - |Flatten(parts)|, if NextSend(w.sends) == Sent then |d.part| else 0);
      var ms := Messages(Peer(k.world, id), k.streamId, parts);
      Associative(Spoken(k.world.sent), ms, [DataMessage(Peer(k.world, id), k.streamId, d.part)]);
      assert Spoken(k.world.sent) + ms + [] == Spoken(k.world.sent) + ms;
    }
  }

  lemma ListenDone(w: World)
    ensures Done(w, Listen) == Listened(w)
  {
  }

  lemma CreditsMore(w: World, id: u32, deeds: seq<Deed>, d: Deed)
    ensures Credits(w, id, deeds + [d]) == Credits(w, id, deeds) + if d.Listen? then CreditIn(After(w, deeds), id) else 0
  {
    hide After, CreditIn;
    assert (deeds + [d])[..|deeds|] == deeds;
  }

  lemma StepWithin(k: Task, front: seq<Deed>, d: Deed)
    requires Accounted(k, front) && Find(k.world.views, k.id).Some? && Rightly(k, After(k.world, front), Flatten(Parts(k.world, front)), d, front == [])
    requires d.Say? ==> |d.part| <= Window(After(k.world, front), k.id)
    ensures Window(After(k.world, front + [d]), k.id) + |Flatten(Parts(k.world, front + [d]))| <=
              Window(After(k.world, front), k.id) + |Flatten(Parts(k.world, front))| +
              Credits(k.world, k.id, front + [d]) - Credits(k.world, k.id, front)
  {
    hide Find, DataMessage, Done, CreditIn, Spoken, Flatten, Messages, Parts, Credits, Window;
    var w := After(k.world, front);
    AfterMore(k.world, front, d);
    PartsMore(k.world, front, d);
    CreditsMore(k.world, k.id, front, d);
    assert Parts(k.world, front) + [] == Parts(k.world, front);
    if d == Listen {
      ListenDone(w);
      HeardBy(w, k.id);
    } else {
      SaidBy(w, k.id, d.streamId, d.part);
      FlattenMore(Parts(k.world, front), d.part);
    }
  }

  lemma NothingSpent(w: World, id: u32)
    ensures After(w, []) == w && Flatten(Parts(w, [])) == [] && Credits(w, id, []) == 0
  {
  }

  /** Up to every moment of a call no more went out than there had been window at its start and credit
      since, unless a message cut before has met a smaller window. */
  lemma {:induction false} SentWithinCredit(k: Task, deeds: seq<Deed>, n: nat)
    requires Proper(k, deeds) && Find(k.world.views, k.id).Some? && n <= |deeds|
    requires k.held && deeds != [] && deeds[0].Say? ==> |deeds[0].part| <= Window(k.world, k.id)
    ensures Window(After(k.world, deeds[..n]), k.id) + |Flatten(Parts(k.world, deeds[..n]))| <=
              Window(k.world, k.id) + Credits(k.world, k.id, deeds[..n])
    decreases n
  {
    hide Find, After, Proper, Parts, Flatten, Credits, Window;
    assert deeds[..0] == [];
    NothingSpent(k.world, k.id);
    if n > 0 {
      SentWithinCredit(k, deeds, n - 1);
      ProperPrefix(k, deeds, n - 1);
      Accounts(k, deeds[..n - 1]);
      StepWithin(k, deeds[..n - 1], deeds[n - 1]);
      assert deeds[..n] == deeds[..n - 1] + [deeds[n - 1]];
    }
  }

  /** One call among several on the same buffer: what it sent and how the write stood after it. */
  datatype Attempt = Attempt(done: seq<byte>, to: Standing)

  /** A whole write: calls repeated, each answering EAGAIN, until one is answered with a count. */
  ghost predicate Whole(buf: seq<byte>, from: Standing, calls: seq<Attempt>)
    requires Sits(buf, from)
    decreases |calls|
  {
    && calls != [] && Moves(buf, from, calls[0].done, calls[0].to)
    && (if |calls| == 1 then calls[0].to == Fresh else calls[0].to != Fresh && Whole(buf, calls[0].to, calls[1..]))
  }

  function Emitted(calls: seq<Attempt>): seq<byte> {
    if calls == [] then [] else calls[0].done + Emitted(calls[1..])
  }

  lemma {:induction false} LastCallSendsAll(buf: seq<byte>, from: Standing, calls: seq<Attempt>)
    requires Sits(buf, from) && Whole(buf, from, calls)
    ensures var before := Emitted(calls[..|calls| - 1]);
            && |Emitted(calls)| == |before| + |buf|
            && (Plan(buf, from) == buf && before == [] ==> Emitted(calls) == buf)
    decreases |calls|
  {
    if |calls| == 1 {
      assert calls[1..] == [] && calls[..0] == [];
      assert Emitted(calls) == calls[0].done + [];
    } else {
      var rest, front := calls[1..], calls[..|calls| - 1];
      LastCallSendsAll(buf, calls[0].to, rest);
      assert front[0] == calls[0] && front[1..] == rest[..|rest| - 1];
      hide Emitted, Whole;
      if Emitted(front) == [] && Plan(buf, from) == buf {
        NothingSentYet(buf, from, calls[0].to);
      }
    }
  }

  lemma NothingSentYet(buf: seq<byte>, from: Standing, to: Standing)
    requires Sits(buf, from) && Moves(buf, from, [], to) && Plan(buf, from) == buf
    ensures Plan(buf, to) == buf
  {
    assert buf[0..] == buf;
  }

  /** The peer gets the buffer, once, just when nothing had been sent before the last call: when no call
      was interrupted after its first message. Otherwise it gets as much more as had been sent. */
  lemma WrittenOnceIff(buf: seq<byte>, calls: seq<Attempt>)
    requires Whole(buf, Fresh, calls)
    ensures |Emitted(calls)| == |Emitted(calls[..|calls| - 1])| + |buf|
    ensures Emitted(calls) == buf <==> Emitted(calls[..|calls| - 1]) == []
  {
    LastCallSendsAll(buf, Fresh, calls);
  }

  /** "abc" in messages of one byte: "a" goes out, then EAGAIN; repeated, the call sends "abbc" in all. */
  lemma WrittenTwice() returns (calls: seq<Attempt>)
    ensures Whole([97, 98, 99], Fresh, calls)
    ensures Emitted(calls) == [97, 98, 98, 99]
  {
    var buf := [97, 98, 99];
    var first := Attempt([97], Holding([98]));
    assert buf[1..] == [98, 99];
    calls := [first, Attempt([98] + buf[1..], Fresh)];
    assert Moves(buf, Fresh, [97], Holding([98]));
    assert calls[1..] == [calls[1]];
    assert Whole(buf, Holding([98]), calls[1..]);
    assert calls[1..][1..] == [];
    assert Emitted(calls[1..]) == [98] + buf[1..] + [];
  }
}
