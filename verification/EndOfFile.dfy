/** `libssh2_channel_eof` over whole runs: when it answers yes, the peer has ended the channel and all its
    data has been read or flushed. */
module EndOfFile {
  import opened Bytes
  import opened Brigade
  import opened Flow
  import opened ByteQueue
  import opened Scripts
  import opened ChannelWorld
  import opened PeerMessages
  import opened Channels
  import opened ChannelFlush
  import opened ChannelRead
  import opened ReadRuns

  /** The bytes of a channel's packets that nobody has read. */
  function Unconsumed(id: u32, ps: seq<Pkt>): nat {
    if ps == [] then 0 else
    var n := |ps| - 1;
    Unconsumed(id, ps[..n]) + if Carries(id, ps[n].data) then |Unread(ps[n])| else 0
  }

  lemma {:induction false} UnconsumedConcat(id: u32, a: seq<Pkt>, b: seq<Pkt>)
    ensures Unconsumed(id, a + b) == Unconsumed(id, a) + Unconsumed(id, b)
    decreases |b|
  {
    hide Carries, Unread;
    if b == [] {
      assert a + b == a;
    } else {
      var n := |b| - 1;
      UnconsumedConcat(id, a, b[..n]);
      assert (a + b)[..|a + b| - 1] == a + b[..n];
    }
  }

  lemma UnconsumedOne(id: u32, p: Pkt)
    ensures Unconsumed(id, [p]) == if Carries(id, p.data) then |Unread(p)| else 0
  {
    assert [p][..0] == [];
  }

  /** A reader's queue is its part of the channel's bytes. */
  lemma {:induction false} UnconsumedSplit(r: Consumer, id: u32, v: seq<Pkt>)
    ensures Unconsumed(id, v) == (if r.id == id then |Queue(r, v)| else 0) + Unconsumed(id, Others(r, v))
  {
    hide Unconsumed, Unread;
    if v == [] {
      UnconsumedConcat(id, [], []);
      assert [] + v == v;
    } else {
      UnconsumedSplit(r, id, v[1..]);
      assert v == [v[0]] + v[1..];
      UnconsumedConcat(id, [v[0]], v[1..]);
      UnconsumedOne(id, v[0]);
      if Matches(r, v[0].data) {
        assert Others(r, v) == [] + Others(r, v[1..]) == Others(r, v[1..]);
      } else {
        UnconsumedConcat(id, [v[0]], Others(r, v[1..]));
      }
    }
  }

  lemma {:induction false} UnconsumedFlushed(i: u32, streamId: int, v: seq<Pkt>, id: u32)
    ensures Unconsumed(id, v) == (if i == id then Thrown(i, streamId, v) else 0) + Unconsumed(id, Unflushed(i, streamId, v))
  {
    hide Unread;
    if v != [] {
      var n := |v| - 1;
      UnconsumedFlushed(i, streamId, v[..n], id);
      UnconsumedConcat(id, Unflushed(i, streamId, v[..n]), [v[n]]);
      UnconsumedOne(id, v[n]);
    }
  }

  lemma UnconsumedOut(id: u32, v: seq<Pkt>, at: nat)
    requires at < |v| && !IsDataType(v[at].data)
    ensures Unconsumed(id, Without(v, at)) == Unconsumed(id, v)
  {
    assert v == v[..at] + ([v[at]] + v[at + 1..]);
    UnconsumedConcat(id, v[..at], [v[at]] + v[at + 1..]);
    UnconsumedConcat(id, [v[at]], v[at + 1..]);
    UnconsumedOne(id, v[at]);
    UnconsumedConcat(id, v[..at], v[at + 1..]);
  }

  /** What is read of the channel in the event, by whomever, or thrown away. */
  ghost function ConsumedIn(id: u32, m: Moment, e: Event): int {
    match e
    case Read(k, _, got) => if k.r.id == id then |got| - |k.held| else 0
    case Flush(i, streamId, _) => if i == id then Thrown(i, streamId, m.view) else 0
    case _ => 0
  }

  lemma StepConsumes(id: u32, m: Moment, e: Event, m': Moment)
    requires Happens(m, e, m')
    ensures Unconsumed(id, m.view) + Unconsumed(id, LinksIn(m, e)) == ConsumedIn(id, m, e) + Unconsumed(id, m'.view)
  {
    hide InStep, Unconsumed, After, Linked, Asked, Owed, Unflushed, Thrown, Moded, Happens;
    NoneThere(id);
    match e {
      case Read(k, deeds, got) => ReadConsumes(id, m, e, m');
      case Flush(i, streamId, refund) =>
        FlushHappens(m, e, m');
        UnconsumedFlushed(i, streamId, m.view, id);
      case _ => OtherConsumes(id, m, e, m');
    }
  }

  lemma NoneThere(id: u32)
    ensures Unconsumed(id, []) == 0
  {
  }

  lemma FlushHappens(m: Moment, e: Event, m': Moment)
    requires Happens(m, e, m') && e.Flush?
    ensures LinksIn(m, e) == [] && m'.view == Unflushed(e.id, e.streamId, m.view)
  {
    hide Unflushed, Owed, After;
    AskedLinks(m.world, e.id, e.refund, false);
  }

  lemma ReadConsumes(id: u32, m: Moment, e: Event, m': Moment)
    requires Happens(m, e, m') && e.Read?
    ensures Unconsumed(id, m.view) + Unconsumed(id, LinksIn(m, e)) == ConsumedIn(id, m, e) + Unconsumed(id, m'.view)
  {
    hide Happens, Unconsumed, Queue, Others, Charge, Thinned, Linked, After, Refunds, ByReader;
    var r, all := e.k.r, m.view + LinksIn(m, e);
    ReadHappens(m, e, m');
    HeldKept(m, e, m');
    UnconsumedConcat(id, m.view, LinksIn(m, e));
    UnconsumedSplit(r, id, all);
    UnconsumedSplit(r, id, m'.view);
    assert |e.k.held + Queue(r, all)| == |e.got + Queue(r, m'.view)|;
  }

  lemma HeldKept(m: Moment, e: Event, m': Moment)
    requires Happens(m, e, m') && e.Read?
    ensures e.k.world == m.world && e.k.view == m.view
  {
    hide InStep;
  }

  lemma OtherConsumes(id: u32, m: Moment, e: Event, m': Moment)
    requires Happens(m, e, m') && !e.Read? && !e.Flush?
    ensures Unconsumed(id, m.view) + Unconsumed(id, LinksIn(m, e)) == Unconsumed(id, m'.view)
  {
    hide Unconsumed, After, Linked, Asked, Moded;
    NoneThere(id);
    match e {
      case Reflush(i, refund) => AskedLinks(m.world, i, refund, true);
      case Other(deeds) => UnconsumedConcat(id, m.view, Linked(m.world, deeds));
      case Ask(at) =>
        NoDeeds(m.world);
        UnconsumedOut(id, m.view, at);
      case _ => NoDeeds(m.world);
    }
  }

  ghost function Consumed(id: u32, moments: seq<Moment>, events: seq<Event>): int
    requires |moments| == |events| + 1
  {
    if events == [] then 0 else
    var n := |events| - 1;
    Consumed(id, moments[..n + 1], events[..n]) + ConsumedIn(id, moments[n], events[n])
  }

  /** How much data the packets read bring the channel. */
  function Gains(w: World, deeds: seq<Deed>, id: u32): nat {
    if deeds == [] then 0 else
    var n := |deeds| - 1;
    Gains(w, deeds[..n], id) + if deeds[n].Listen? then Gain(After(w, deeds[..n]), id) else 0
  }

  lemma LinksGain(w: World, id: u32)
    ensures Unconsumed(id, ReadLinks(w)) == Gain(w, id)
    ensures ReadLinks(w) != [] && Carries(id, ReadLinks(w)[0].data) <==> KeepsIn(w, id)
  {
    hide ReadLinks, U32Of, Unconsumed;
    NoneThere(id);
    if Delivers(w, id) {
      DataLinked(w, id);
      var m := w.incoming[0].data;
      if ReadLinks(w) != [] {
        var p := ReadLinks(w)[0];
        assert p.data[1..5] == m[1..5];
        UnconsumedOne(id, p);
      }
    } else {
      NotLinkedFor(w, id);
      NoDataLinked(w);
      NothingThere(id, ReadLinks(w));
    }
  }

  /** Data that is linked is as long as its fields. */
  lemma NoDataLinked(w: World)
    ensures forall p <- ReadLinks(w) | p.data != [] && (p.data[0] == 94 || p.data[0] == 95) :: IsData(p.data)
  {
    hide U32Of;
  }

  lemma {:induction false} LinkedGains(w: World, deeds: seq<Deed>, id: u32)
    ensures Unconsumed(id, Linked(w, deeds)) == Gains(w, deeds, id)
  {
    hide Unconsumed, ReadLinks, After, Gain;
    NoneThere(id);
    if deeds != [] {
      var n := |deeds| - 1;
      LinkedGains(w, deeds[..n], id);
      UnconsumedConcat(id, Linked(w, deeds[..n]), if deeds[n].Listen? then ReadLinks(After(w, deeds[..n])) else []);
      LinksGain(After(w, deeds[..n]), id);
    }
  }

  /** The bytes that messages have brought the channel. */
  ghost function Accepted(id: u32, moments: seq<Moment>, events: seq<Event>): int
    requires |moments| == |events| + 1
  {
    if events == [] then 0 else
    var n := |events| - 1;
    Accepted(id, moments[..n + 1], events[..n]) + Gains(moments[n].world, DeedsOf(events[n]), id)
  }

  /** Over every run, whoever reads and whatever is flushed, every byte that a channel's messages have
      brought is read, thrown away, or still there. */
  lemma {:induction false} EveryByte(id: u32, moments: seq<Moment>, events: seq<Event>)
    requires Run(moments, events)
    ensures Unconsumed(id, moments[0].view) + Accepted(id, moments, events) ==
              Consumed(id, moments, events) + Unconsumed(id, moments[|events|].view)
  {
    hide Happens, Unconsumed, ConsumedIn, Linked, Gains;
    if events != [] {
      var n := |events| - 1;
      RunPrefix(moments, events);
      EveryByte(id, moments[..n + 1], events[..n]);
      StepConsumes(id, moments[n], events[n], moments[n + 1]);
      LinkedGains(moments[n].world, DeedsOf(events[n]), id);
    }
  }

  /** The peer's mark on a channel. */
  predicate Marked(w: World, id: u32) {
    var k := Find(w.views, id);
    k.Some? && w.views[k.value].eof
  }

  /** The packet read next is the peer's EOF or CLOSE of the channel. */
  predicate EndsIn(w: World, id: u32) {
    && w.adding == None && w.connected && w.incoming != [] && w.incoming[0].Payload?
    && var m := w.incoming[0].data;
    && 5 <= |m| < TWO32 && (m[0] == 96 || m[0] == 97) && U32Of(m[1..5]) == id
  }

  /** The packet read next brings the channel data that is linked. */
  predicate KeepsIn(w: World, id: u32) {
    Delivers(w, id) && w.views[Find(w.views, id).value].flow.window > 0
  }

  lemma HeardMarks(v: Chan, data: seq<byte>, id: u32)
    requires WellFormed(data) && !Ignores(v, data)
    ensures var kept := LinkedBy(Some(v), data) != [] && Carries(id, LinkedBy(Some(v), data)[0].data);
            var ends := data[0] == CHANNEL_EOF || data[0] == CHANNEL_CLOSE;
            && (kept ==> IdOf(data) == id && !ends)
            && (IdOf(data) == id ==> (Heard(v, data).eof <==> ends || (v.eof && !kept)))
  {
    hide U32Of, IsExitStatus;
    var links := LinkedBy(Some(v), data);
    if links != [] && (data[0] == CHANNEL_DATA || data[0] == CHANNEL_EXTENDED_DATA) {
      assert links[0].data[1..5] == data[1..5];
    }
  }

  lemma NoneKept(o: Option<Chan>, data: seq<byte>, id: u32)
    requires WellFormed(data) && (o == None || Ignores(o.value, data))
    ensures LinkedBy(o, data) != [] ==> !Carries(id, LinkedBy(o, data)[0].data)
    ensures o.Some? ==> data[0] == CHANNEL_EXTENDED_DATA && 13 <= |data| < TWO32
  {
  }

  lemma MarkReplaced(w: World, w': World, i: nat, v: Chan, id: u32)
    requires i < |w.views| && w'.views == w.views[i := v] && v.localId == w.views[i].localId
    ensures Find(w'.views, id) == Find(w.views, id)
    ensures Marked(w', id) <==> if Find(w.views, id) == Some(i) then v.eof else Marked(w, id)
  {
    FindKept(w.views, i, v, id);
  }

  lemma RefundMarks(w: World, k: nat, a: u32, id: u32)
    requires k < |w.views|
    ensures Find(Refunded(w, k, a).views, id) == Find(w.views, id) && (Marked(Refunded(w, k, a), id) <==> Marked(w, id))
  {
    hide Adjust, Writes, Announcement;
    MarkReplaced(w, Refunded(w, k, a), k, w.views[k].(flow := Adjustment(w, k, a).state), id);
  }

  lemma ToldMarks(w: World, data: seq<byte>, id: u32)
    requires WellFormed(data) && Find(w.views, id).Some?
    ensures var w', links := Told(w, data), LinkedBy(OwnerOf(w, data), data);
            && Find(w'.views, id) == Find(w.views, id)
            && (Marked(w', id) <==>
                  ((data[0] == CHANNEL_EOF || data[0] == CHANNEL_CLOSE) && IdOf(data) == id)
                  || (Marked(w, id) && !(links != [] && Carries(id, links[0].data))))
  {
    hide Heard, Refunded, TakenForAgain, Ignores, WellFormed, LinkedBy, IdOf, Carries;
    var k := Find(w.views, IdOf(data));
    if k == None {
      NoneKept(None, data, id);
    } else if Ignores(w.views[k.value], data) {
      NoneKept(Some(w.views[k.value]), data, id);
      RefundMarks(w, k.value, |data| - 13, id);
    } else {
      HeardMarks(w.views[k.value], data, id);
      MarkReplaced(w, Told(w, data), k.value, Heard(w.views[k.value], data), id);
    }
  }

  lemma EndsNext(w: World, id: u32)
    ensures EndsIn(w, id) <==>
              var next := NextIn(w.incoming);
              && w.adding == None && w.connected && next.Payload? && WellFormed(next.data)
              && (next.data[0] == CHANNEL_EOF || next.data[0] == CHANNEL_CLOSE) && IdOf(next.data) == id
  {
    hide U32Of;
  }

  lemma ListenMarks(w: World, id: u32)
    requires Find(w.views, id).Some?
    ensures Find(Listened(w).views, id) == Find(w.views, id)
    ensures Marked(Listened(w), id) <==> EndsIn(w, id) || (Marked(w, id) && !KeepsIn(w, id))
  {
    EndsNext(w, id);
    LinksGain(w, id);
    hide Heard, Refunded, TakenForAgain, Ignores, WellFormed, LinkedBy, IdOf, Told, Carries, KeepsIn, EndsIn;
    if w.adding.Some? {
      var data := w.adding.value;
      var k := Find(w.views, IdOf(data));
      if k.Some? && 13 <= |data| < TWO32 {
        RefundMarks(w, k.value, |data| - 13, id);
      }
    } else if w.connected && NextIn(w.incoming).Payload? && WellFormed(NextIn(w.incoming).data) {
      ToldMarks(w.(incoming := Later(w.incoming)), NextIn(w.incoming).data, id);
    }
  }

  lemma DeedMarks(w: World, d: Deed, id: u32)
    requires Find(w.views, id).Some?
    ensures Find(Done(w, d).views, id) == Find(w.views, id)
    ensures Marked(Done(w, d), id) <==>
              if d.Listen? then EndsIn(w, id) || (Marked(w, id) && !KeepsIn(w, id)) else Marked(w, id)
  {
    hide Refunded, Listened, EndsIn, KeepsIn;
    if d.Listen? {
      ListenMarks(w, id);
    } else {
      var k := Find(w.views, d.id);
      if k.Some? && !d.Say? {
        RefundMarks(w, k.value, d.amount, id);
      } else if k.Some? && |d.part| < TWO32 && NextSend(w.sends) == Sent {
        var v := w.views[k.value];
        MarkReplaced(w, Done(w, d), k.value, v.(localWindow := Sub32(v.localWindow, |d.part|)), id);
      }
    }
  }

  /** The sessions at which packets were read. */
  function Hearings(w: World, deeds: seq<Deed>): seq<World> {
    if deeds == [] then [] else
    var n := |deeds| - 1;
    Hearings(w, deeds[..n]) + if deeds[n].Listen? then [After(w, deeds[..n])] else []
  }

  ghost function AllHearings(moments: seq<Moment>, events: seq<Event>): seq<World>
    requires |moments| == |events| + 1
  {
    if events == [] then [] else
    var n := |events| - 1;
    AllHearings(moments[..n + 1], events[..n]) + Hearings(moments[n].world, DeedsOf(events[n]))
  }

  /** No data of the channel has been linked from the `i`-th packet on. */
  ghost predicate Quiet(hs: seq<World>, id: u32, i: nat) {
    forall j | i <= j < |hs| :: !KeepsIn(hs[j], id)
  }

  /** The mark stood and nothing has been linked since; or the peer has ended the channel, and nothing has
      been linked since. */
  ghost predicate MarkStands(marked: bool, hs: seq<World>, id: u32) {
    (marked && Quiet(hs, id, 0)) || exists i :: 0 <= i < |hs| && EndsIn(hs[i], id) && Quiet(hs, id, i + 1)
  }

  lemma MarkStandsMore(marked: bool, hs: seq<World>, id: u32, w: World)
    ensures MarkStands(marked, hs + [w], id) <==> EndsIn(w, id) || (MarkStands(marked, hs, id) && !KeepsIn(w, id))
  {
    hide EndsIn, KeepsIn;
    var all := hs + [w];
    assert all[|hs|] == w && forall j | 0 <= j < |hs| :: all[j] == hs[j];
    assert forall i | 0 <= i <= |hs| :: Quiet(all, id, i) <==> Quiet(hs, id, i) && !KeepsIn(w, id);
    assert Quiet(all, id, |all|);
  }

  lemma {:induction false} DeedsMark(marked: bool, hs: seq<World>, w: World, deeds: seq<Deed>, id: u32)
    requires Find(w.views, id).Some? && (Marked(w, id) <==> MarkStands(marked, hs, id))
    ensures Find(After(w, deeds).views, id) == Find(w.views, id)
    ensures Marked(After(w, deeds), id) <==> MarkStands(marked, hs + Hearings(w, deeds), id)
  {
    hide Done, Marked, MarkStands, EndsIn, KeepsIn;
    if deeds == [] {
      assert hs + [] == hs;
    } else {
      var n := |deeds| - 1;
      var w1 := After(w, deeds[..n]);
      DeedsMark(marked, hs, w, deeds[..n], id);
      DeedMarks(w1, deeds[n], id);
      MarkStandsMore(marked, hs + Hearings(w, deeds[..n]), id, w1);
      Associative(hs, Hearings(w, deeds[..n]), [w1]);
      assert Hearings(w, deeds[..n]) + [] == Hearings(w, deeds[..n]);
    }
  }

  /** What an event does to the channel besides its deeds leaves the mark. */
  lemma MarkKept(m: Moment, e: Event, m': Moment, id: u32)
    requires Happens(m, e, m') && Find(m.world.views, id).Some?
    requires Find(After(m.world, DeedsOf(e)).views, id) == Find(m.world.views, id)
    ensures Find(m'.world.views, id).Some? && (Marked(m'.world, id) <==> Marked(After(m.world, DeedsOf(e)), id))
  {
    hide Progress, ByReader, After, Linked, Asked, Owed, Unflushed;
    NoDeeds(m.world);
    if e.SetMode? {
      var k := Find(m.world.views, e.id);
      if k.Some? {
        var v := m.world.views[k.value];
        MarkReplaced(m.world, m'.world, k.value, v.(flow := v.flow.(mode := e.mode)), id);
      }
    } else if e.Open? {
      FindFirst(m.world.views, e.v, id);
    }
  }

  /** Over every run the peer's mark stands just when the peer has sent EOF or CLOSE, or it stood before,
      and no data has been taken since. */
  lemma {:induction false} EndMark(moments: seq<Moment>, events: seq<Event>, id: u32)
    requires Run(moments, events) && Find(moments[0].world.views, id).Some?
    ensures Find(moments[|events|].world.views, id).Some?
    ensures Marked(moments[|events|].world, id) <==>
              MarkStands(Marked(moments[0].world, id), AllHearings(moments, events), id)
  {
    hide Happens, Marked, EndsIn, KeepsIn, After, Find;
    if events != [] {
      var n := |events| - 1;
      var m, e, m' := moments[n], events[n], moments[n + 1];
      RunPrefix(moments, events);
      EndMark(moments[..n + 1], events[..n], id);
      DeedsMark(Marked(moments[0].world, id), AllHearings(moments[..n + 1], events[..n]), m.world, DeedsOf(e), id);
      MarkKept(m, e, m', id);
    }
  }

  /** The answer of `libssh2_channel_eof` (see `ChannelRead.Eof`). */
  ghost predicate SaysEof(m: Moment, id: u32) {
    Marked(m.world, id) && forall p <- m.view :: !Carries(id, p.data)
  }

  lemma SaysSo(s: Session, c: Channel)
    requires s.Valid() && c in s.channels
    ensures SaysEof(Moment(s.World(), s.packets.view), c.localId) <==> AtEof(s, c)
  {
    hide List.Valid, Session.AllSteady, Session.InputOk, Session.IdsOk, Carries;
    s.Finds(c);
    ViewIs(c);
  }

  lemma {:induction false} NothingThere(id: u32, v: seq<Pkt>)
    requires forall p <- v :: !Carries(id, p.data)
    ensures Unconsumed(id, v) == 0
  {
    if v != [] {
      NothingThere(id, v[..|v| - 1]);
    }
  }

  /** End of file comes last, over every run: when the answer is yes, the peer has ended the channel, or
      had before the run, no data has been taken since, and every byte that came before has been read or
      thrown away. A reader that shared its packets with none has been handed, or flushed, all of its. */
  lemma EofComesLast(id: u32, moments: seq<Moment>, events: seq<Event>)
    requires Run(moments, events) && Find(moments[0].world.views, id).Some? && SaysEof(moments[|events|], id)
    ensures MarkStands(Marked(moments[0].world, id), AllHearings(moments, events), id)
    ensures Consumed(id, moments, events) == Unconsumed(id, moments[0].view) + Accepted(id, moments, events)
    ensures forall r: Consumer | r.id == id && (forall e <- events :: Clean(r, e)) ::
              Taken(r, moments, events) == Queue(r, moments[0].view) + Arrived(r, moments, events)
  {
    hide Happens, Marked, MarkStands, Unconsumed, Consumed, Accepted, Taken, Arrived, Clean, Queue, AllHearings;
    EndMark(moments, events, id);
    EveryByte(id, moments, events);
    NothingThere(id, moments[|events|].view);
    forall r: Consumer | r.id == id && (forall e <- events :: Clean(r, e))
      ensures Taken(r, moments, events) == Queue(r, moments[0].view) + Arrived(r, moments, events)
    {
      NoneOfIts(r, moments[|events|].view);
      NothingQueued(r, moments[|events|].view);
      FirstInFirstOut(r, moments, events);
      assert Taken(r, moments, events) + [] == Taken(r, moments, events);
    }
  }

  lemma NoneOfIts(r: Consumer, v: seq<Pkt>)
    requires forall p <- v :: !Carries(r.id, p.data)
    ensures NoneMatches(r, v)
  {
  }
}
