/** A session's channels and what reaches them, as values: what a message from the peer, a window
    adjustment and a data message written do to them, one after the other. */
module ChannelWorld {
  import opened Bytes
  import opened Brigade
  import opened Flow
  import opened ByteQueue
  import opened Scripts

  const DISCONNECT: byte := 1
  const IGNORE: byte := 2
  const DEBUG: byte := 4
  const CHANNEL_WINDOW_ADJUST: byte := 93
  const CHANNEL_EOF: byte := 96
  const CHANNEL_CLOSE: byte := 97
  const CHANNEL_REQUEST: byte := 98

  /** What the transport layer has for `libssh2_packet_add` next. */
  datatype Incoming = Payload(data: seq<byte>) | NoData | Broken

  /** What is found on the socket next. */
  function NextIn(incoming: seq<Incoming>): Incoming {
    if incoming == [] then NoData else incoming[0]
  }

  function HeadOf(data: seq<byte>): nat
    requires data != []
  {
    if data[0] == CHANNEL_EXTENDED_DATA then 13 else 9
  }

  const EXIT_STATUS: seq<byte> := [101, 120, 105, 116, 45, 115, 116, 97, 116, 117, 115]

  predicate IsExitStatus(data: seq<byte>) {
    |data| >= 20 && data[0] == CHANNEL_REQUEST && U32Of(data[5..9]) == 11 && data[9..20] == EXIT_STATUS
  }

  /** A message is as long as the fields its type is read for. */
  predicate WellFormed(data: seq<byte>) {
    && 0 < |data| < TWO32
    && (data[0] == CHANNEL_DATA || data[0] == CHANNEL_WINDOW_ADJUST || data[0] == CHANNEL_REQUEST ==> |data| >= 9)
    && (data[0] == CHANNEL_EXTENDED_DATA ==> |data| >= 13)
    && (data[0] == CHANNEL_EOF || data[0] == CHANNEL_CLOSE ==> |data| >= 5)
    && (IsExitStatus(data) ==> |data| >= 25)
  }

  /** The window-adjust message (channel.c:1403-1405). */
  function AdjustMessage(id: u32, amount: u32): (m: seq<byte>)
    ensures |m| == 9 && m[0] == CHANNEL_WINDOW_ADJUST
  {
    [CHANNEL_WINDOW_ADJUST] + U32Bytes(id) + U32Bytes(amount)
  }

  lemma AdjustMessageAmount(id: u32, amount: u32)
    ensures U32Of(AdjustMessage(id, amount)[5..]) == amount
  {
    assert AdjustMessage(id, amount)[5..] == U32Bytes(amount) + [];
    U32RoundTrip(amount, []);
  }

  /** CHANNEL_DATA or CHANNEL_EXTENDED_DATA with its payload (channel.c:1779-1787, 1831-1834). */
  function DataMessage(id: u32, streamId: u32, part: seq<byte>): (m: seq<byte>)
    requires |part| < TWO32
    ensures |m| == |part| + (if streamId != 0 then 13 else 9) && m[0] != CHANNEL_WINDOW_ADJUST
  {
    [if streamId != 0 then CHANNEL_EXTENDED_DATA else CHANNEL_DATA] + U32Bytes(id) +
    (if streamId != 0 then U32Bytes(streamId) else []) + U32Bytes(|part|) + part
  }

  /** A channel: its numbers here and there, its receiving side, its sending window, and what else
      messages from the peer can change. */
  datatype Chan = Chan(localId: u32, remoteId: u32, flow: State, localWindow: u32, eof: bool, close: bool, exitStatus: u32)

  /** Where the channel with this number is. */
  function Find(views: seq<Chan>, id: u32): (k: Option<nat>)
    ensures k.Some? ==> k.value < |views| && views[k.value].localId == id
    ensures k == None ==> forall v <- views :: v.localId != id
  {
    if views == [] then None
    else if views[0].localId == id then Some(0)
    else
      var k := Find(views[1..], id);
      if k == None then None else Some(k.value + 1)
  }

  /** A channel's value may change, its place does not. */
  lemma {:induction false} FindKept(views: seq<Chan>, i: nat, v: Chan, id: u32)
    requires i < |views| && v.localId == views[i].localId
    ensures Find(views[i := v], id) == Find(views, id)
    decreases i
  {
    if i > 0 {
      assert views[i := v][1..] == views[1..][i - 1 := v];
      FindKept(views[1..], i - 1, v, id);
    } else {
      assert views[0 := v][1..] == views[1..];
    }
  }

  lemma {:induction false} FindFirst(views: seq<Chan>, v: Chan, id: u32)
    requires Find(views, id).Some?
    ensures Find(views + [v], id) == Find(views, id)
  {
    assert (views + [v])[0] == views[0];
    if views[0].localId != id {
      assert (views + [v])[1..] == views[1..] + [v];
      FindFirst(views[1..], v, id);
    }
  }

  /** Extended data in IGNORE mode is thrown away and refunded at once. */
  predicate Ignores(v: Chan, data: seq<byte>) {
    data != [] && data[0] == CHANNEL_EXTENDED_DATA && v.flow.mode == Ignore
  }

  /** What a message does to the channel it is for, unless it is data to be ignored. */
  function Heard(v: Chan, data: seq<byte>): (v': Chan)
    requires WellFormed(data)
    ensures v'.localId == v.localId && v'.remoteId == v.remoteId
  {
    var t := data[0];
    if t == CHANNEL_DATA || t == CHANNEL_EXTENDED_DATA then
      var (f, verdict) := Receive(v.flow, |data| - HeadOf(data), t == CHANNEL_EXTENDED_DATA);
      if verdict.Kept? then v.(flow := f, eof := false) else v
    else if t == CHANNEL_EOF then v.(eof := true)
    else if t == CHANNEL_CLOSE then v.(eof := true, close := true)
    else if t == CHANNEL_WINDOW_ADJUST then v.(localWindow := Add32(v.localWindow, U32Of(data[5..9])))
    else if IsExitStatus(data) then v.(exitStatus := U32Of(data[21..25]))
    else v
  }

  /** What is linked for a message, given its channel if that is known. */
  function LinkedBy(o: Option<Chan>, data: seq<byte>): seq<Pkt>
    requires WellFormed(data)
  {
    var t := data[0];
    if t == CHANNEL_DATA || t == CHANNEL_EXTENDED_DATA then
      if o == None then [] else
      var verdict := Receive(o.value.flow, |data| - HeadOf(data), t == CHANNEL_EXTENDED_DATA).1;
      if verdict.Kept? then [Pkt(data[..HeadOf(data) + verdict.n], HeadOf(data))] else []
    else if t in {DISCONNECT, IGNORE, DEBUG, CHANNEL_EOF, CHANNEL_CLOSE, CHANNEL_WINDOW_ADJUST} || IsExitStatus(data) then []
    else [Pkt(data, 0)]
  }

  /** The channels; what is still to come from the socket, and how writes will fare; the messages
      handed to the transport layer; and the message whose `libssh2_packet_add` is unfinished. */
  datatype World = World(views: seq<Chan>, incoming: seq<Incoming>, sends: seq<WriteOutcome>, sent: seq<seq<byte>>,
                         connected: bool, adding: Option<seq<byte>>)

  /** What `libssh2_channel_receive_window_adjust` comes to for the channel in place `k`. */
  function Adjustment(w: World, k: nat, a: u32): Adjusted
    requires k < |w.views|
  {
    Adjust(w.views[k].flow, a, false, NextSend(w.sends))
  }

  function Announcement(id: u32, r: Adjusted): seq<seq<byte>> {
    if r.announced.Some? then [AdjustMessage(id, r.announced.value)] else []
  }

  function Refunded(w: World, k: nat, a: u32): (w': World)
    requires k < |w.views|
    ensures |w'.views| == |w.views|
  {
    var v, r := w.views[k], Adjustment(w, k, a);
    w.(views := w.views[k := v.(flow := r.state)], sent := w.sent + Announcement(v.remoteId, r),
       sends := if Writes(v.flow, a, false) then Later(w.sends) else w.sends)
  }

  /** The callers take the call for interrupted. */
  predicate TakenForAgain(w: World, k: nat, a: u32)
    requires k < |w.views|
  {
    ReturnCode(Adjustment(w, k, a)) == EAGAIN_CODE
  }

  predicate IsTakenForAgain(w: World, id: u32, a: u32) {
    var k := Find(w.views, id);
    k.Some? && TakenForAgain(w, k.value, a)
  }

  /** `libssh2_packet_add` on a new message. */
  function Told(w: World, data: seq<byte>): (w': World)
    requires WellFormed(data)
    ensures |w'.views| == |w.views|
  {
    match Find(w.views, IdOf(data))
    case None => w.(connected := w.connected && data[0] != DISCONNECT)
    case Some(k) =>
      if Ignores(w.views[k], data) then
        Refunded(w, k, |data| - 13).(adding := if TakenForAgain(w, k, |data| - 13) then Some(data) else None)
      else w.(views := w.views[k := Heard(w.views[k], data)], connected := w.connected && data[0] != DISCONNECT)
  }

  /** `libssh2_packet_add` again, on the message whose refund was put off. */
  function Retold(w: World, data: seq<byte>): (w': World)
    ensures |w'.views| == |w.views|
  {
    match Find(w.views, IdOf(data))
    case None => w
    case Some(k) =>
      if |data| < 13 || |data| >= TWO32 then w
      else Refunded(w, k, |data| - 13).(adding := if TakenForAgain(w, k, |data| - 13) then Some(data) else None)
  }

  /** `libssh2_packet_read`. */
  function Listened(w: World): (w': World)
    ensures |w'.views| == |w.views|
  {
    if w.adding.Some? then Retold(w, w.adding.value)
    else if !w.connected then w
    else
      var w1, next := w.(incoming := Later(w.incoming)), NextIn(w.incoming);
      if next.Payload? && WellFormed(next.data) then Told(w1, next.data) else w1
  }

  datatype ReadCode = Type(t: byte) | Blocked | Fail

  /** What it answers. */
  function ReadAnswer(w: World): ReadCode {
    if w.adding.Some? then
      if Listened(w).adding.Some? || w.adding.value == [] then Blocked else Type(w.adding.value[0])
    else if !w.connected then Type(0)
    else match NextIn(w.incoming)
      case NoData => Blocked
      case Broken => Fail
      case Payload(data) =>
        if Listened(w).adding.Some? || data == [] then Blocked
        else if data[0] == DISCONNECT then Fail
        else Type(data[0])
  }

  /** What it links. */
  function ReadLinks(w: World): seq<Pkt> {
    var next := NextIn(w.incoming);
    if w.adding.Some? || !w.connected || !next.Payload? || !WellFormed(next.data) then []
    else LinkedBy(OwnerOf(w, next.data), next.data)
  }

  /** How much input is left, counting a message whose `libssh2_packet_add` is unfinished. */
  function Left(w: World): nat {
    |w.incoming| + if w.adding.Some? then 1 else 0
  }

  lemma ListenedLess(w: World)
    ensures Left(Listened(w)) <= Left(w) && (ReadAnswer(w).Type? && w.connected ==> Left(Listened(w)) < Left(w))
    ensures ReadAnswer(w) != Fail ==> Listened(w).connected == w.connected
  {
    hide Heard, Adjust, Writes, Announcement;
  }

  function OwnerOf(w: World, data: seq<byte>): Option<Chan> {
    var k := Find(w.views, IdOf(data));
    if k == None then None else Some(w.views[k.value])
  }

  lemma LinksNothing(w: World)
    requires !ReadAnswer(w).Type?
    ensures ReadLinks(w) == []
  {
    hide Adjust, Writes, Announcement, IdOf;
  }

  /** What the library does to this world: it reads a packet; it adjusts the window of a channel for a
      packet or several that are gone, or repeats that call; it writes a data message, or repeats that. */
  datatype Deed =
    | Listen
    | Refund(id: u32, amount: u32)
    | Repeat(id: u32, amount: u32)
    | Say(id: u32, streamId: u32, part: seq<byte>)

  function Said(w: World, k: nat, streamId: u32, part: seq<byte>): (w': World)
    requires k < |w.views| && |part| < TWO32
    ensures |w'.views| == |w.views|
  {
    var v, w1 := w.views[k], w.(sends := Later(w.sends));
    if NextSend(w.sends) != Sent then w1
    else w1.(views := w.views[k := v.(localWindow := Sub32(v.localWindow, |part|))],
             sent := w.sent + [DataMessage(v.remoteId, streamId, part)])
  }

  function Done(w: World, d: Deed): (w': World)
    ensures |w'.views| == |w.views|
  {
    if d.Listen? then Listened(w) else
    var k := Find(w.views, d.id);
    if k == None then w
    else if d.Say? then if |d.part| < TWO32 then Said(w, k.value, d.streamId, d.part) else w
    else Refunded(w, k.value, d.amount)
  }

  lemma RefundDone(w: World, id: u32, k: nat, a: u32)
    requires Find(w.views, id) == Some(k)
    ensures Done(w, Refund(id, a)) == Refunded(w, k, a) && (IsTakenForAgain(w, id, a) <==> TakenForAgain(w, k, a))
  {
  }

  /** Ignored data is a refund, and as long as that is to be repeated the message is kept. */
  lemma ToldIgnored(w: World, k: nat, data: seq<byte>)
    requires WellFormed(data) && Find(w.views, IdOf(data)) == Some(k) && Ignores(w.views[k], data)
    ensures var w1, d := w.(adding := Some(data)), Refund(IdOf(data), |data| - 13);
            Told(w, data) == Done(w1, d).(adding := if IsTakenForAgain(w1, d.id, d.amount) then Some(data) else None)
  {
    hide Adjust, Writes, ReturnCode, Announcement;
    var w1 := w.(adding := Some(data));
    RefundDone(w1, IdOf(data), k, |data| - 13);
  }

  lemma RetoldIs(w: World, k: nat, data: seq<byte>)
    requires 13 <= |data| < TWO32 && Find(w.views, IdOf(data)) == Some(k)
    ensures var d := Refund(IdOf(data), |data| - 13);
            Retold(w, data) == Done(w, d).(adding := if IsTakenForAgain(w, d.id, d.amount) then Some(data) else None)
  {
    RefundDone(w, IdOf(data), k, |data| - 13);
  }

  function After(w: World, deeds: seq<Deed>): (w': World)
    ensures |w'.views| == |w.views|
  {
    if deeds == [] then w else Done(After(w, deeds[..|deeds| - 1]), deeds[|deeds| - 1])
  }

  /** The last deed was a packet read, and this the answer. */
  ghost predicate Answered(w: World, deeds: seq<Deed>, rc: ReadCode) {
    deeds != [] && deeds[|deeds| - 1] == Listen && ReadAnswer(After(w, deeds[..|deeds| - 1])) == rc
  }

  /** All that is linked on the way. */
  function Linked(w: World, deeds: seq<Deed>): seq<Pkt> {
    if deeds == [] then [] else
    var n := |deeds| - 1;
    Linked(w, deeds[..n]) + if deeds[n].Listen? then ReadLinks(After(w, deeds[..n])) else []
  }

  /** What a channel asks to be refunded, calls repeated not counted. */
  function Refunds(id: u32, deeds: seq<Deed>): nat {
    if deeds == [] then 0 else
    var n := |deeds| - 1;
    Refunds(id, deeds[..n]) + if deeds[n].Refund? && deeds[n].id == id then deeds[n].amount else 0
  }

  lemma AfterMore(w: World, deeds: seq<Deed>, d: Deed)
    ensures After(w, deeds + [d]) == Done(After(w, deeds), d)
    ensures Linked(w, deeds + [d]) == Linked(w, deeds) + if d.Listen? then ReadLinks(After(w, deeds)) else []
    ensures forall id :: Refunds(id, deeds + [d]) == Refunds(id, deeds) + if d.Refund? && d.id == id then d.amount else 0
  {
    hide Done, ReadLinks;
    assert (deeds + [d])[..|deeds|] == deeds;
  }

  /** The messages handed to the transport layer other than window adjustments. */
  function Spoken(sent: seq<seq<byte>>): seq<seq<byte>> {
    if sent == [] then [] else
    var n := |sent| - 1;
    Spoken(sent[..n]) + if sent[n] != [] && sent[n][0] == CHANNEL_WINDOW_ADJUST then [] else [sent[n]]
  }

  lemma SpokenMore(sent: seq<seq<byte>>, m: seq<byte>)
    ensures Spoken(sent + [m]) == Spoken(sent) + if m != [] && m[0] == CHANNEL_WINDOW_ADJUST then [] else [m]
  {
    assert (sent + [m])[..|sent|] == sent;
  }

  /** An adjustment that is sent at once. */
  lemma AdjustsOnce(w: World, id: u32, k: nat, a: u32, d: Deed)
    requires Find(w.views, id) == Some(k) && (d == Refund(id, a) || d == Repeat(id, a))
    requires var f := w.views[k].flow; f.underway == None && MINADJUST <= a && a + f.queue < TWO32
    requires w.sends != [] && w.sends[0] == Sent
    ensures var v, w1 := w.views[k], Done(w, d);
            && Find(w1.views, id) == Some(k) && w1.sends == w.sends[1..]
            && w1.sent == w.sent + [AdjustMessage(v.remoteId, a + v.flow.queue)]
            && w1.views[k] == v.(flow := v.flow.(window := Add32(v.flow.window, a + v.flow.queue), queue := 0))
            && (IsTakenForAgain(w, id, a) <==> Add32(v.flow.window, a + v.flow.queue) == EAGAIN_CODE)
  {
    hide AdjustMessage;
    var v := w.views[k];
    FindKept(w.views, k, v.(flow := Adjustment(w, k, a).state), id);
  }

  /** So a call that is done is taken for interrupted just when the window it leaves is 2^32 - 37; it is
      repeated then, and what the peer has been promised is promised once more. */
  lemma PromisedTwice(w: World, id: u32, k: nat, a: u32)
    requires Find(w.views, id) == Some(k) && |w.sends| >= 2 && w.sends[0] == w.sends[1] == Sent
    requires var f := w.views[k].flow; f.underway == None && MINADJUST <= a && a + f.queue < TWO32
    ensures var v, w' := w.views[k], After(w, [Refund(id, a), Repeat(id, a)]);
            && (IsTakenForAgain(w, id, a) <==> Add32(v.flow.window, a + v.flow.queue) == EAGAIN_CODE)
            && w'.sent == w.sent + [AdjustMessage(v.remoteId, a + v.flow.queue)] + [AdjustMessage(v.remoteId, a)]
            && Find(w'.views, id) == Some(k)
            && w'.views[k].flow.window == Add32(Add32(v.flow.window, a + v.flow.queue), a)
  {
    hide AdjustMessage, Done, IsTakenForAgain, Add32;
    TwoDone(w, Refund(id, a), Repeat(id, a));
    AdjustsOnce(w, id, k, a, Refund(id, a));
    AdjustsOnce(Done(w, Refund(id, a)), id, k, a, Repeat(id, a));
  }

  lemma TwoDone(w: World, d: Deed, e: Deed)
    ensures After(w, [d, e]) == Done(Done(w, d), e)
  {
    hide Done;
    AfterMore(w, [], d);
    AfterMore(w, [d], e);
    assert [] + [d] == [d] && [d] + [e] == [d, e];
  }
}
