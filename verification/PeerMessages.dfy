/** What messages from the peer bring, field by field (sections 5.2 and 5.3 of RFC 4254). */
module PeerMessages {
  import opened Bytes
  import opened Brigade
  import opened Flow
  import opened ByteQueue
  import opened Scripts
  import opened ChannelWorld

  /** The packet read next brings data for the channel, which is known and does not ignore it. */
  predicate Delivers(w: World, id: u32) {
    && w.adding == None && w.connected && w.incoming != [] && w.incoming[0].Payload?
    && var m, k := w.incoming[0].data, Find(w.views, id);
    && 9 <= |m| < TWO32 && U32Of(m[1..5]) == id && k.Some?
    && (m[0] == 94 || (m[0] == 95 && |m| >= 13 && w.views[k.value].flow.mode != Ignore))
  }

  /** Its payload, as far as packet size and window allow. */
  function Kept(w: World, id: u32): seq<byte>
    requires Delivers(w, id)
  {
    var m, f := w.incoming[0].data, w.views[Find(w.views, id).value].flow;
    var payload := if m[0] == 95 then m[13..] else m[9..];
    payload[..Least(|payload|, f.packetSize, f.window)]
  }

  function Least(a: nat, b: nat, c: nat): (n: nat)
    ensures n <= a && n <= b && n <= c && n in {a, b, c}
  {
    if a <= b && a <= c then a else if b <= c then b else c
  }

  /** It is for this reader. */
  predicate MeantFor(r: Consumer, m: seq<byte>) {
    |m| >= 9 && if r.stream == 0 then m[0] == 94 || r.mode == Merge else m[0] == 95 && U32Of(m[5..9]) == r.stream
  }

  /** What the packet read next brings the reader, and the refund there will be for it: four bytes more
      than the payload when it is extended data taken for standard data. */
  function Brought(w: World, r: Consumer): seq<byte> {
    if Delivers(w, r.id) && MeantFor(r, w.incoming[0].data) then Kept(w, r.id) else []
  }

  function Due(w: World, r: Consumer): nat {
    if !Delivers(w, r.id) || !MeantFor(r, w.incoming[0].data) || w.views[Find(w.views, r.id).value].flow.window == 0 then 0
    else |Kept(w, r.id)| + if r.stream == 0 && w.incoming[0].data[0] == 95 then 4 else 0
  }

  /** How much data it brings the channel. */
  function Gain(w: World, id: u32): nat {
    if Delivers(w, id) then |Kept(w, id)| else 0
  }

  /** A data message as it is linked: `data` up to the end of the payload kept, the reader's place at its
      beginning. */
  lemma DataLinked(w: World, id: u32)
    requires Delivers(w, id)
    ensures var m, v := w.incoming[0].data, w.views[Find(w.views, id).value];
            var head := if m[0] == 95 then 13 else 9;
            ReadLinks(w) == if v.flow.window == 0 then [] else [Pkt(m[..head + |Kept(w, id)|], head)]
    ensures ReadAnswer(w) == Type(w.incoming[0].data[0])
    ensures var m, k := w.incoming[0].data, Find(w.views, id).value;
            var v, n := w.views[k], |m| - if m[0] == 95 then 13 else 9;
            Listened(w) == w.(incoming := w.incoming[1..], views := w.views[k :=
              if v.flow.window == 0 then v
              else if n > v.flow.window && v.flow.packetSize > v.flow.window then v.(eof := false)
              else v.(eof := false, flow := v.flow.(window := v.flow.window - |Kept(w, id)|))])
  {
    hide U32Of;
    var m, k := w.incoming[0].data, Find(w.views, id).value;
    assert OwnerOf(w, m) == Some(w.views[k]);
    assert Told(w.(incoming := w.incoming[1..]), m) == w.(incoming := w.incoming[1..], views := w.views[k := Heard(w.views[k], m)]);
  }

  /** A message that brings a channel nothing is linked for another one, or is no data, or is not linked. */
  lemma NotLinkedFor(w: World, id: u32)
    requires !Delivers(w, id)
    ensures forall p <- ReadLinks(w) :: !(IsData(p.data) && IdOf(p.data) == id)
  {
    hide U32Of;
    var next := NextIn(w.incoming);
    if w.adding == None && w.connected && next.Payload? && WellFormed(next.data) {
      var links := LinkedBy(OwnerOf(w, next.data), next.data);
      if links != [] && (next.data[0] == 94 || next.data[0] == 95) {
        assert links[0].data[1..5] == next.data[1..5];
      }
    }
  }

  /** One data message cut behind its first `n` payload bytes, seen from a reader of its channel. */
  lemma OneLinked(r: Consumer, m: seq<byte>, head: nat, n: nat)
    requires (m != [] && m[0] == 94 && head == 9) || (m != [] && m[0] == 95 && head == 13)
    requires head + n <= |m| && U32Of(m[1..5]) == r.id
    ensures var p, mine := Pkt(m[..head + n], head), MeantFor(r, m);
            && Queue(r, [p]) == (if mine then m[head..][..n] else [])
            && Charge(r, [p]) == if mine then n + if r.stream == 0 && m[0] == 95 then 4 else 0 else 0
  {
    hide U32Of;
    var p := Pkt(m[..head + n], head);
    assert [p][1..] == [] && p.data[1..5] == m[1..5];
    assert m[0] == 95 ==> p.data[5..9] == m[5..9];
    assert Unread(p) == m[head..][..n];
  }

  /** What is linked for a packet read: for every reader, just the payload that is for it. */
  lemma LinksBring(w: World, r: Consumer)
    ensures Queue(r, ReadLinks(w)) == Brought(w, r) && Charge(r, ReadLinks(w)) == Due(w, r)
  {
    hide ReadLinks, U32Of, MeantFor, Queue, Charge;
    if Delivers(w, r.id) {
      DataLinked(w, r.id);
      OneLinked(r, w.incoming[0].data, if w.incoming[0].data[0] == 95 then 13 else 9, |Kept(w, r.id)|);
      NothingQueued(r, []);
    } else {
      NotLinkedFor(w, r.id);
      NothingQueued(r, ReadLinks(w));
    }
  }

  /** Standard data within packet size and window: every reader of the channel's standard data finds the
      message from its tenth byte on at the end of its queue, and no other reader does. What does not fit is
      cut, and without window nothing is kept. The mode for extended data does not matter. */
  lemma StandardArrives(w: World, id: u32, k: nat, m: seq<byte>, r: Consumer, view: seq<Pkt>)
    requires w.adding == None && w.connected && w.incoming != [] && w.incoming[0] == Payload(m)
    requires 9 <= |m| < TWO32 && m[0] == 94 && U32Of(m[1..5]) == id && Find(w.views, id) == Some(k)
    ensures var f, q, q' := w.views[k].flow, Queue(r, view), Queue(r, view + ReadLinks(w));
            && (r.id != id || r.stream != 0 ==> q' == q)
            && (r.id == id && r.stream == 0 ==>
                  && (|m| - 9 <= f.packetSize && |m| - 9 <= f.window ==> q' == q + m[9..])
                  && (f.packetSize < |m| - 9 && f.packetSize <= f.window ==> q' == q + m[9..9 + f.packetSize])
                  && (f.window < |m| - 9 && f.window < f.packetSize ==> q' == q + m[9..9 + f.window]))
  {
    hide U32Of, ReadLinks, Queue, Find;
    LinksBring(w, r);
    QueueConcat(r, view, ReadLinks(w));
    assert Queue(r, view) + [] == Queue(r, view);
    Slices(m, 9, Least(|m| - 9, w.views[k].flow.packetSize, w.views[k].flow.window));
  }

  /** Extended data, unless it is ignored: the readers are those of its stream, and those of the standard
      data that have extended data merged in; the payload starts at the fourteenth byte. */
  lemma ExtendedArrives(w: World, id: u32, k: nat, m: seq<byte>, r: Consumer, view: seq<Pkt>)
    requires w.adding == None && w.connected && w.incoming != [] && w.incoming[0] == Payload(m)
    requires 13 <= |m| < TWO32 && m[0] == 95 && U32Of(m[1..5]) == id && Find(w.views, id) == Some(k)
    ensures var f, q, q' := w.views[k].flow, Queue(r, view), Queue(r, view + ReadLinks(w));
            var mine := r.id == id && if r.stream == 0 then r.mode == Merge else r.stream == U32Of(m[5..9]);
            && (!mine || f.mode == Ignore ==> q' == q)
            && (mine && f.mode != Ignore ==>
                  && (|m| - 13 <= f.packetSize && |m| - 13 <= f.window ==> q' == q + m[13..])
                  && (f.packetSize < |m| - 13 && f.packetSize <= f.window ==> q' == q + m[13..13 + f.packetSize])
                  && (f.window < |m| - 13 && f.window < f.packetSize ==> q' == q + m[13..13 + f.window]))
  {
    hide U32Of, ReadLinks, Queue, Find;
    LinksBring(w, r);
    QueueConcat(r, view, ReadLinks(w));
    assert Queue(r, view) + [] == Queue(r, view);
    Slices(m, 13, Least(|m| - 13, w.views[k].flow.packetSize, w.views[k].flow.window));
  }

  lemma Slices(m: seq<byte>, head: nat, n: nat)
    requires head + n <= |m|
    ensures m[head..][..n] == m[head..head + n] && (head + n == |m| ==> m[head..][..n] == m[head..])
  {
  }

  /** Nothing else brings any reader data: another message, one for a channel that is not known, or none. */
  lemma NothingArrives(w: World, r: Consumer, view: seq<Pkt>)
    requires w.adding.Some? || !w.connected || w.incoming == [] || !w.incoming[0].Payload? ||
             (var m := w.incoming[0].data;
              m == [] || (m[0] != 94 && m[0] != 95) || |m| < 9 || Find(w.views, U32Of(m[1..5])) == None)
    ensures Queue(r, view + ReadLinks(w)) == Queue(r, view)
  {
    hide U32Of, ReadLinks;
    LinksBring(w, r);
    QueueConcat(r, view, ReadLinks(w));
    assert Queue(r, view) + [] == Queue(r, view);
  }

  /** A word laid out behind others is read back. */
  lemma WordAt(before: seq<byte>, v: u32, behind: seq<byte>)
    ensures var m, at := before + U32Bytes(v) + behind, |before|; U32Of(m[at..at + 4]) == v
  {
    var m, at := before + U32Bytes(v) + behind, |before|;
    U32RoundTrip(v, []);
    assert m[at..at + 4] == U32Bytes(v) + [];
  }

  /** CHANNEL_EOF and CHANNEL_CLOSE: both say that no more data follows, CLOSE also that the channel is
      closed. Nothing is linked and nothing else changes. */
  lemma EndHeard(w: World, id: u32, k: nat, closing: bool)
    requires w.adding == None && w.connected && w.incoming != [] && Find(w.views, id) == Some(k)
    requires w.incoming[0] == Payload([if closing then 97 else 96] + U32Bytes(id))
    ensures var v := w.views[k];
            Listened(w) == w.(incoming := w.incoming[1..], views := w.views[k := v.(eof := true, close := v.close || closing)])
    ensures ReadLinks(w) == [] && ReadAnswer(w) == Type(if closing then 97 else 96)
  {
    hide U32Of, U32Bytes;
    var t: byte := if closing then 97 else 96;
    WordAt([t], id, []);
    assert w.incoming[0].data == [t] + U32Bytes(id) + [];
  }

  /** CHANNEL_WINDOW_ADJUST: the amount is added to the sending window. */
  lemma CreditHeard(w: World, id: u32, k: nat, amount: u32)
    requires w.adding == None && w.connected && w.incoming != [] && Find(w.views, id) == Some(k)
    requires w.incoming[0] == Payload([93] + U32Bytes(id) + U32Bytes(amount))
    ensures var v := w.views[k];
            Listened(w) == w.(incoming := w.incoming[1..],
                              views := w.views[k := v.(localWindow := (v.localWindow + amount) % TWO32)])
    ensures ReadLinks(w) == [] && ReadAnswer(w) == Type(93)
  {
    hide U32Of, U32Bytes;
    WordAt([93], id, U32Bytes(amount));
    WordAt([93] + U32Bytes(id), amount, []);
    assert w.incoming[0].data == [93] + U32Bytes(id) + U32Bytes(amount) + [];
  }

  /** The request "exit-status" (section 6.10 of RFC 4254). */
  lemma StatusHeard(w: World, id: u32, k: nat, status: u32)
    requires w.adding == None && w.connected && w.incoming != [] && Find(w.views, id) == Some(k)
    requires w.incoming[0] == Payload([98] + U32Bytes(id) + U32Bytes(11) +
                                      [101, 120, 105, 116, 45, 115, 116, 97, 116, 117, 115] + [0] + U32Bytes(status))
    ensures Listened(w) == w.(incoming := w.incoming[1..], views := w.views[k := w.views[k].(exitStatus := status)])
    ensures ReadLinks(w) == [] && ReadAnswer(w) == Type(98)
  {
    hide U32Of, WellFormed;
    var m := w.incoming[0].data;
    StatusFields(id, status, m);
  }

  lemma StatusFields(id: u32, status: u32, m: seq<byte>)
    requires m == [98] + U32Bytes(id) + U32Bytes(11) + [101, 120, 105, 116, 45, 115, 116, 97, 116, 117, 115] + [0] + U32Bytes(status)
    ensures m[0] == 98 && IdOf(m) == id && IsExitStatus(m) && WellFormed(m) && U32Of(m[21..25]) == status
  {
    hide U32Of, U32Bytes;
    var text: seq<byte> := [101, 120, 105, 116, 45, 115, 116, 97, 116, 117, 115];
    WordAt([98], id, U32Bytes(11) + text + [0] + U32Bytes(status));
    WordAt([98] + U32Bytes(id), 11, text + [0] + U32Bytes(status));
    WordAt([98] + U32Bytes(id) + U32Bytes(11) + text + [0], status, []);
    assert m == [98] + U32Bytes(id) + (U32Bytes(11) + text + [0] + U32Bytes(status));
    assert m == [98] + U32Bytes(id) + U32Bytes(11) + (text + [0] + U32Bytes(status));
    assert m == [98] + U32Bytes(id) + U32Bytes(11) + text + [0] + U32Bytes(status) + [];
    assert m[9..20] == text;
  }

  /** DISCONNECT ends the connection; IGNORE and DEBUG go by. */
  lemma TransportHeard(w: World, m: seq<byte>)
    requires w.adding == None && w.connected && w.incoming != [] && w.incoming[0] == Payload(m)
    requires 0 < |m| < TWO32 && m[0] in {1, 2, 4}
    ensures Listened(w) == w.(incoming := w.incoming[1..], connected := m[0] != 1)
    ensures ReadLinks(w) == [] && ReadAnswer(w) == if m[0] == 1 then Fail else Type(m[0])
  {
    hide U32Of;
    var k := Find(w.views, IdOf(m));
    assert k.Some? ==> w.views[k.value := w.views[k.value]] == w.views;
  }

  /** Any other message but "exit-status" is linked whole, for those who ask for it, and changes nothing. */
  lemma OtherLinked(w: World, m: seq<byte>)
    requires w.adding == None && w.connected && w.incoming != [] && w.incoming[0] == Payload(m)
    requires 0 < |m| < TWO32 && m[0] !in {1, 2, 4, 93, 94, 95, 96, 97}
    requires m[0] == 98 ==>
               9 <= |m| && (U32Of(m[5..9]) != 11 || |m| < 20 || m[9..20] != [101, 120, 105, 116, 45, 115, 116, 97, 116, 117, 115])
    ensures Listened(w) == w.(incoming := w.incoming[1..]) && ReadLinks(w) == [Pkt(m, 0)] && ReadAnswer(w) == Type(m[0])
  {
    hide U32Of;
    var k := Find(w.views, IdOf(m));
    assert k.Some? ==> w.views[k.value := w.views[k.value]] == w.views;
  }

  /** With no message to be had, or no connection, nothing happens but that the answer says so. */
  lemma NothingHeard(w: World)
    requires w.adding == None && (!w.connected || w.incoming == [] || !w.incoming[0].Payload?)
    ensures Listened(w) == w.(incoming := if !w.connected || w.incoming == [] then w.incoming else w.incoming[1..])
    ensures ReadLinks(w) == []
    ensures ReadAnswer(w) == if !w.connected then Type(0)
                             else if w.incoming != [] && w.incoming[0] == Broken then Fail else Blocked
  {
  }

  /** A message for a channel that is not known is dropped. */
  lemma UnknownHeard(w: World, m: seq<byte>)
    requires w.adding == None && w.connected && w.incoming != [] && w.incoming[0] == Payload(m)
    requires WellFormed(m) && m[0] in {93, 94, 95, 96, 97} && Find(w.views, U32Of(m[1..5])) == None
    ensures Listened(w) == w.(incoming := w.incoming[1..]) && ReadLinks(w) == [] && ReadAnswer(w) == Type(m[0])
  {
    hide U32Of;
  }

  /** The data messages that are written, as the peer reads them. */
  lemma DataMessageFields(id: u32, streamId: u32, part: seq<byte>)
    requires |part| < TWO32
    ensures var m := DataMessage(id, streamId, part);
            if streamId == 0 then
              && |m| == 9 + |part| && m[0] == 94 && U32Of(m[1..5]) == id && U32Of(m[5..9]) == |part| && m[9..] == part
            else
              && |m| == 13 + |part| && m[0] == 95 && U32Of(m[1..5]) == id && U32Of(m[5..9]) == streamId
              && U32Of(m[9..13]) == |part| && m[13..] == part
    ensures |part| + 13 < TWO32 ==> WellFormed(DataMessage(id, streamId, part))
  {
    hide U32Of, U32Bytes;
    var t: byte := if streamId == 0 then 94 else 95;
    var m, n: u32 := DataMessage(id, streamId, part), |part|;
    var stream := if streamId == 0 then [] else U32Bytes(streamId);
    WordAt([t], id, stream + U32Bytes(n) + part);
    assert m == [t] + U32Bytes(id) + (stream + U32Bytes(n) + part);
    if streamId != 0 {
      WordAt([t] + U32Bytes(id), streamId, U32Bytes(n) + part);
      assert m == [t] + U32Bytes(id) + stream + (U32Bytes(n) + part);
    }
    WordAt([t] + U32Bytes(id) + stream, n, part);
  }

  lemma AdjustMessageFields(id: u32, amount: u32)
    ensures var m := AdjustMessage(id, amount);
            |m| == 9 && m[0] == 93 && U32Of(m[1..5]) == id && U32Of(m[5..9]) == amount
  {
    hide U32Of, U32Bytes;
    WordAt([93], id, U32Bytes(amount));
    WordAt([93] + U32Bytes(id), amount, []);
    assert AdjustMessage(id, amount) == [93] + U32Bytes(id) + U32Bytes(amount) + [];
  }

  /** A data message within packet size and window is read. */
  lemma PartHeard(w: World, k: nat, streamId: u32, part: seq<byte>, r: Consumer, view: seq<Pkt>)
    requires w.adding == None && w.connected && Find(w.views, r.id) == Some(k) && |part| + 13 < TWO32
    requires w.incoming != [] && w.incoming[0] == Payload(DataMessage(r.id, streamId, part))
    requires |part| <= w.views[k].flow.packetSize && |part| <= w.views[k].flow.window
    requires streamId != 0 ==> w.views[k].flow.mode != Ignore
    requires r.stream == streamId || (r.stream == 0 && r.mode == Merge)
    ensures Queue(r, view + ReadLinks(w)) == Queue(r, view) + part
    ensures var w', f := Listened(w), w.views[k].flow;
            && w'.adding == None && w'.connected && w'.incoming == w.incoming[1..] && Find(w'.views, r.id) == Some(k)
            && w'.views[k].flow == f.(window := f.window - |part|)
  {
    hide U32Of, ReadLinks, Listened, DataMessage;
    var m := w.incoming[0].data;
    DataMessageFields(r.id, streamId, part);
    DataLinked(w, r.id);
    if streamId == 0 {
      StandardArrives(w, r.id, k, m, r, view);
    } else {
      ExtendedArrives(w, r.id, k, m, r, view);
    }
    FindKept(w.views, k, Listened(w).views[k], r.id);
  }

  /** What one end says the other hears: `x` writes `part` for its channel, and the message is the one that
      `w` reads next. If it is within the packet size and the window there, it is all at the end of the
      queue, for every reader of that stream; and both windows are down by its length. */
  lemma SaidIsHeard(x: World, i: nat, streamId: u32, part: seq<byte>, w: World, k: nat, r: Consumer, view: seq<Pkt>)
    requires i < |x.views| && Find(x.views, x.views[i].localId) == Some(i) && NextSend(x.sends) == Sent && |part| + 13 < TWO32
    requires var x' := Done(x, Say(x.views[i].localId, streamId, part));
             && |x'.sent| == |x.sent| + 1 && w.incoming != [] && w.incoming[0] == Payload(x'.sent[|x.sent|])
    requires w.adding == None && w.connected && Find(w.views, x.views[i].remoteId) == Some(k)
    requires |part| <= w.views[k].flow.packetSize && |part| <= w.views[k].flow.window
    requires streamId != 0 ==> w.views[k].flow.mode != Ignore
    requires r.id == x.views[i].remoteId && (r.stream == streamId || (r.stream == 0 && r.mode == Merge))
    ensures Queue(r, view + ReadLinks(w)) == Queue(r, view) + part
    ensures var x', w' := Done(x, Say(x.views[i].localId, streamId, part)), Listened(w);
            && x'.views[i].localWindow == (x.views[i].localWindow - |part|) % TWO32
            && Find(w'.views, r.id) == Some(k) && w'.views[k].flow.window == w.views[k].flow.window - |part|
  {
    hide ReadLinks, Listened, DataMessage;
    assert w.incoming[0].data == DataMessage(x.views[i].remoteId, streamId, part);
    PartHeard(w, k, streamId, part, r, view);
  }

  /** Window given back is window the peer has: from 1024 bytes on a refund, with what was queued, is announced
      at once, and `x`, which reads the message next, may send as much more. */
  lemma RefundIsHeard(w: World, k: nat, a: u32, x: World, i: nat)
    requires k < |w.views| && Find(w.views, w.views[k].localId) == Some(k) && NextSend(w.sends) == Sent
    requires var f := w.views[k].flow; f.underway == None && 1024 <= a + f.queue < TWO32
    requires var w' := Done(w, Refund(w.views[k].localId, a));
             |w'.sent| == |w.sent| + 1 ==> x.incoming != [] && x.incoming[0] == Payload(w'.sent[|w.sent|])
    requires x.adding == None && x.connected && Find(x.views, w.views[k].remoteId) == Some(i)
    ensures var f, w' := w.views[k].flow, Done(w, Refund(w.views[k].localId, a));
            && |w'.sent| == |w.sent| + 1
            && w'.views[k].flow == f.(window := (f.window + a + f.queue) % TWO32, queue := 0)
            && Listened(x).views[i].localWindow == (x.views[i].localWindow + a + f.queue) % TWO32
  {
    hide Listened, AdjustMessage;
    var v := w.views[k];
    CreditHeardIf(x, v.remoteId, i, a + v.flow.queue);
  }

  lemma CreditHeardIf(x: World, id: u32, i: nat, amount: u32)
    requires x.adding == None && x.connected && Find(x.views, id) == Some(i)
    ensures x.incoming != [] && x.incoming[0] == Payload(AdjustMessage(id, amount)) ==>
              Listened(x).views[i].localWindow == (x.views[i].localWindow + amount) % TWO32
  {
    hide Listened;
    if x.incoming != [] && x.incoming[0] == Payload(AdjustMessage(id, amount)) {
      CreditHeard(x, id, i, amount);
    }
  }

  /** Less than that is put off, and nothing is sent. */
  lemma RefundPutOff(w: World, k: nat, a: u32)
    requires k < |w.views| && Find(w.views, w.views[k].localId) == Some(k)
    requires var f := w.views[k].flow; f.underway == None && a + f.queue < 1024
    ensures var v := w.views[k];
            Done(w, Refund(v.localId, a)) == w.(views := w.views[k := v.(flow := v.flow.(queue := a + v.flow.queue))])
  {
    assert w.sent + [] == w.sent;
  }

  /** The payloads that packets bring the reader, one after the other, as the session reads them. */
  function Came(w: World, deeds: seq<Deed>, r: Consumer): seq<byte> {
    if deeds == [] then [] else
    var n := |deeds| - 1;
    Came(w, deeds[..n], r) + if deeds[n].Listen? then Brought(After(w, deeds[..n]), r) else []
  }

  /** The refunds there will be for them. */
  function AllDue(w: World, deeds: seq<Deed>, r: Consumer): nat {
    if deeds == [] then 0 else
    var n := |deeds| - 1;
    AllDue(w, deeds[..n], r) + if deeds[n].Listen? then Due(After(w, deeds[..n]), r) else 0
  }

  /** What is linked on the way is, for every reader, these payloads. */
  lemma {:induction false} LinkedIsWhatCame(w: World, deeds: seq<Deed>, r: Consumer)
    ensures Queue(r, Linked(w, deeds)) == Came(w, deeds, r) && Charge(r, Linked(w, deeds)) == AllDue(w, deeds, r)
  {
    hide Queue, Charge, ReadLinks, After, Brought, Due;
    NothingQueued(r, []);
    if deeds != [] {
      var n := |deeds| - 1;
      var w1 := After(w, deeds[..n]);
      LinkedIsWhatCame(w, deeds[..n], r);
      QueueConcat(r, Linked(w, deeds[..n]), if deeds[n].Listen? then ReadLinks(w1) else []);
      LinksBring(w1, r);
    }
  }
}
