/** Whole runs of a session and its packet brigade: reads by any number of readers, flushes, writes and
    other calls that take packets in, and packets taken out for other purposes. */
module ReadRuns {
  import opened Bytes
  import opened Brigade
  import opened Flow
  import opened ByteQueue
  import opened ChannelWorld
  import opened PeerMessages
  import opened Channels
  import opened ChannelFlush
  import opened ChannelRead
  import ChannelWrite

  datatype Moment = Moment(world: World, view: seq<Pkt>)

  /** A call of `libssh2_channel_read_ex` that leaves `got` in the buffer; a flush, or one repeated; a
      call that is none of these (see `ChannelWrite`), with packets read, messages written, windows
      adjusted; a packet that carries no data taken by `libssh2_packet_ask_ex`; another mode for extended
      data; a channel opened. */
  datatype Event =
    | Read(k: Call, deeds: seq<Deed>, got: seq<byte>)
    | Flush(id: u32, streamId: int, refund: u32)
    | Reflush(id: u32, refund: u32)
    | Other(deeds: seq<Deed>)
    | Ask(at: nat)
    | SetMode(id: u32, mode: ExtMode)
    | Open(v: Chan)

  predicate IsDataType(data: seq<byte>) {
    data != [] && (data[0] == CHANNEL_DATA || data[0] == CHANNEL_EXTENDED_DATA)
  }

  ghost predicate Happens(m: Moment, e: Event, m': Moment) {
    match e
    case Read(k, deeds, got) => k.world == m.world && k.view == m.view && InStep(k, deeds, m'.world, m'.view, got, 0)
    case Flush(id, streamId, refund) =>
      && refund == Owed(id, streamId, m.view) && m'.view == Unflushed(id, streamId, m.view)
      && m'.world == After(m.world, Asked(id, refund, false))
    case Reflush(id, refund) => m'.view == m.view && m'.world == After(m.world, Asked(id, refund, true))
    case Other(deeds) => m'.view == m.view + Linked(m.world, deeds) && m'.world == After(m.world, deeds)
    case Ask(at) => at < |m.view| && !IsDataType(m.view[at].data) && m' == m.(view := Without(m.view, at))
    case SetMode(id, mode) => m' == m.(world := Moded(m.world, id, mode))
    case Open(v) => Find(m.world.views, v.localId) == None && m' == m.(world := m.world.(views := m.world.views + [v]))
  }

  function Moded(w: World, id: u32, mode: ExtMode): World {
    var k := Find(w.views, id);
    if k == None then w else
    var v := w.views[k.value];
    w.(views := w.views[k.value := v.(flow := v.flow.(mode := mode))])
  }

  /** What is done to the session in the event. */
  ghost function DeedsOf(e: Event): seq<Deed> {
    match e
    case Read(_, deeds, _) => deeds
    case Flush(id, _, refund) => Asked(id, refund, false)
    case Reflush(id, refund) => Asked(id, refund, true)
    case Other(deeds) => deeds
    case _ => []
  }

  /** The packets that the messages read in the event bring. */
  ghost function LinksIn(m: Moment, e: Event): seq<Pkt> {
    Linked(m.world, DeedsOf(e))
  }

  lemma AskedLinks(w: World, id: u32, refund: u32, again: bool)
    ensures Linked(w, Asked(id, refund, again)) == []
  {
    hide After, ReadLinks;
    assert Asked(id, refund, again) != [] ==> Asked(id, refund, again)[..0] == [];
  }

  ghost predicate Run(moments: seq<Moment>, events: seq<Event>) {
    |moments| == |events| + 1 && forall i | 0 <= i < |events| :: Happens(moments[i], events[i], moments[i + 1])
  }

  lemma RunPrefix(moments: seq<Moment>, events: seq<Event>)
    requires Run(moments, events) && events != []
    ensures var n := |events| - 1;
            Run(moments[..n + 1], events[..n]) && Happens(moments[n], events[n], moments[n + 1])
  {
    hide Happens;
    var n := |events| - 1;
    var ms, es := moments[..n + 1], events[..n];
    forall i | 0 <= i < n
      ensures Happens(ms[i], es[i], ms[i + 1])
    {
      assert Happens(moments[i], events[i], moments[i + 1]);
    }
  }

  /** No packet is for both readers. */
  predicate Apart(r: Consumer, q: Consumer) {
    r.id != q.id || (r.stream != q.stream && (r.stream != 0 || r.mode != Merge) && (q.stream != 0 || q.mode != Merge))
  }

  /** The flush takes all the reader's packets. */
  predicate Takes(r: Consumer, id: u32, streamId: int) {
    r.id == id && (|| streamId == FLUSH_ALL
                   || (r.stream == 0 && streamId == 0)
                   || (r.stream != 0 && (streamId == FLUSH_EXTENDED_DATA || streamId == Signed(r.stream))))
  }

  /** The flush may take some of the reader's packets and leave others: it is of one kind of data,
      and the reader merges both. */
  predicate Splits(r: Consumer, id: u32, streamId: int) {
    r.id == id && r.stream == 0 && r.mode == Merge && streamId != FLUSH_ALL
  }

  /** The event is the reader's own, or leaves its packets alone, or takes them all. */
  predicate Clean(r: Consumer, e: Event) {
    match e
    case Read(k, _, _) => k.r == r || Apart(r, k.r)
    case Flush(id, streamId, _) => !Splits(r, id, streamId)
    case _ => true
  }

  /** What the reader was handed in the event, or what was thrown away unread. */
  ghost function TakenBy(r: Consumer, m: Moment, e: Event): seq<byte> {
    match e
    case Read(k, _, got) => if k.r == r && |k.held| <= |got| then got[|k.held|..] else []
    case Flush(id, streamId, _) => if Takes(r, id, streamId) then Queue(r, m.view) else []
    case _ => []
  }

  /** The payloads for the reader in the packets read in the event. */
  ghost function ArrivedIn(r: Consumer, m: Moment, e: Event): seq<byte> {
    Came(m.world, DeedsOf(e), r)
  }

  ghost function Taken(r: Consumer, moments: seq<Moment>, events: seq<Event>): seq<byte>
    requires |moments| == |events| + 1
  {
    if events == [] then [] else
    var n := |events| - 1;
    Taken(r, moments[..n + 1], events[..n]) + TakenBy(r, moments[n], events[n])
  }

  /** What the messages read in the course of the run brought for the reader. */
  ghost function Arrived(r: Consumer, moments: seq<Moment>, events: seq<Event>): seq<byte>
    requires |moments| == |events| + 1
  {
    if events == [] then [] else
    var n := |events| - 1;
    Arrived(r, moments[..n + 1], events[..n]) + ArrivedIn(r, moments[n], events[n])
  }

  lemma {:induction false} OthersKeepsQueue(r: Consumer, q: Consumer, v: seq<Pkt>)
    requires Apart(r, q)
    ensures Queue(r, Others(q, v)) == Queue(r, v) && Charge(r, Others(q, v)) == Charge(r, v)
  {
    if v != [] {
      OthersKeepsQueue(r, q, v[1..]);
      var head := if Matches(q, v[0].data) then [] else [v[0]];
      assert head != [] ==> head[1..] == [];
      QueueConcat(r, head, Others(q, v[1..]));
    }
  }

  /** A read does not disturb the readers of other streams or channels. */
  lemma ReadersApart(r: Consumer, q: Consumer, v: seq<Pkt>, held: seq<byte>, arrived: seq<Pkt>, v': seq<Pkt>, got: seq<byte>,
                     paid: int)
    requires Apart(r, q) && Progress(q, v, held, arrived, v', got, paid)
    ensures Queue(r, v') == Queue(r, v) + Queue(r, arrived) && Charge(r, v') == Charge(r, v) + Charge(r, arrived)
  {
    OthersKeepsQueue(r, q, v + arrived);
    OthersKeepsQueue(r, q, v');
    QueueConcat(r, v, arrived);
  }

  lemma SignedInjective(a: u32, b: u32)
    ensures Signed(a) == Signed(b) <==> a == b
  {
  }

  lemma EmptyQueue(r: Consumer)
    ensures Queue(r, []) == [] && Charge(r, []) == 0
  {
  }

  lemma FlushOne(r: Consumer, id: u32, streamId: int, data: seq<byte>)
    requires !Splits(r, id, streamId) && Matches(r, data)
    ensures Selected(id, streamId, data) <==> Takes(r, id, streamId)
  {
    hide U32Of, IdOf;
    SignedInjective(U32Of(data[5..9]), r.stream);
  }

  lemma QueueOfOne(r: Consumer, p: Pkt)
    ensures if Matches(r, p.data) then Queue(r, [p]) == Unread(p) && Charge(r, [p]) == |p.data| - RefundHead(r.stream)
            else Queue(r, [p]) == [] && Charge(r, [p]) == 0
  {
    hide Matches, Unread;
    assert [p][1..] == [];
  }

  lemma {:induction false} FlushQueue(r: Consumer, id: u32, streamId: int, v: seq<Pkt>)
    requires !Splits(r, id, streamId)
    ensures Queue(r, Unflushed(id, streamId, v)) == if Takes(r, id, streamId) then [] else Queue(r, v)
    ensures Charge(r, Unflushed(id, streamId, v)) == if Takes(r, id, streamId) then 0 else Charge(r, v)
  {
    hide Matches, Selected, Takes, Splits, Unread, Queue, Charge;
    if v == [] {
      EmptyQueue(r);
    } else {
      var n := |v| - 1;
      var p, kept := v[n], Unflushed(id, streamId, v[..n]);
      FlushQueue(r, id, streamId, v[..n]);
      QueueConcat(r, v[..n], [p]);
      QueueConcat(r, kept, [p]);
      assert v == v[..n] + [p];
      QueueOfOne(r, p);
      if Matches(r, p.data) {
        FlushOne(r, id, streamId, p.data);
      } else {
        assert Queue(r, kept) + [] == Queue(r, kept) && Queue(r, v[..n]) + [] == Queue(r, v[..n]);
      }
    }
  }

  /** Stream number -2 stands for all of a channel's data and -1 for all extended data; 0 is the standard data,
      any other number that stream. The readers of what is meant find nothing more, all others find what was
      there. Only for one that merges extended data into the standard stream it may be either. */
  lemma Flushed(r: Consumer, id: u32, streamId: int, v: seq<Pkt>)
    requires -2 <= streamId < 0x8000_0000 && r.stream < 0x8000_0000
    ensures r.id != id ==> Queue(r, Unflushed(id, streamId, v)) == Queue(r, v)
    ensures r.id == id && streamId == -2 ==> Queue(r, Unflushed(id, streamId, v)) == []
    ensures r.id == id && streamId == -1 && r.stream != 0 ==> Queue(r, Unflushed(id, streamId, v)) == []
    ensures r.id == id && streamId == -1 && r.stream == 0 && r.mode != Merge ==>
              Queue(r, Unflushed(id, streamId, v)) == Queue(r, v)
    ensures r.id == id && streamId >= 0 && (r.stream != 0 || r.mode != Merge) ==>
              Queue(r, Unflushed(id, streamId, v)) == if r.stream == streamId then [] else Queue(r, v)
  {
    hide Unflushed, Queue;
    if !Splits(r, id, streamId) {
      FlushQueue(r, id, streamId, v);
    }
  }

  /** The reader's own read. */
  lemma OwnRead(r: Consumer, v: seq<Pkt>, held: seq<byte>, arrived: seq<Pkt>, v': seq<Pkt>, got: seq<byte>, paid: int)
    requires Progress(r, v, held, arrived, v', got, paid)
    ensures |held| <= |got| && Queue(r, v) + Queue(r, arrived) == got[|held|..] + Queue(r, v')
    ensures Charge(r, v) + Charge(r, arrived) == paid + Charge(r, v')
  {
    hide Queue, Charge, Others;
    QueueConcat(r, v, arrived);
    assert (held + Queue(r, v + arrived))[|held|..] == Queue(r, v + arrived);
    assert (got + Queue(r, v'))[|held|..] == got[|held|..] + Queue(r, v');
  }

  /** A packet that carries no data is taken out. */
  lemma TakenOut(r: Consumer, v: seq<Pkt>, at: nat)
    requires at < |v| && !IsData(v[at].data)
    ensures Queue(r, Without(v, at)) == Queue(r, v) && Charge(r, Without(v, at)) == Charge(r, v)
  {
    assert v == v[..at] + ([v[at]] + v[at + 1..]);
    QueueConcat(r, v[..at], [v[at]] + v[at + 1..]);
    QueueConcat(r, [v[at]], v[at + 1..]);
    assert [v[at]][1..] == [];
    QueueConcat(r, v[..at], v[at + 1..]);
  }

  lemma StepKeepsOrder(r: Consumer, m: Moment, e: Event, m': Moment)
    requires Happens(m, e, m') && Clean(r, e)
    ensures Queue(r, m.view) + ArrivedIn(r, m, e) == TakenBy(r, m, e) + Queue(r, m'.view)
    ensures Charge(r, m.view) + ChargedIn(r, m, e) == RefundedBy(r, m, e) + Charge(r, m'.view)
  {
    hide Queue, Charge, Others, Progress, Unflushed, After, Linked, Asked, Owed, Moded, ByReader;
    hide Came, AllDue;
    EmptyQueue(r);
    LinkedIsWhatCame(m.world, DeedsOf(e), r);
    match e {
      case Read(k, deeds, got) =>
        var paid := Refunds(k.r.id, deeds) + 0;
        if k.r == r {
          OwnRead(r, m.view, k.held, Linked(m.world, deeds), m'.view, got, paid);
        } else {
          ReadersApart(r, k.r, m.view, k.held, Linked(m.world, deeds), m'.view, got, paid);
        }
      case Flush(id, streamId, refund) =>
        AskedLinks(m.world, id, refund, false);
        FlushQueue(r, id, streamId, m.view);
      case Reflush(id, refund) => AskedLinks(m.world, id, refund, true);
      case Other(deeds) => QueueConcat(r, m.view, Linked(m.world, deeds));
      case Ask(at) =>
        TakenOut(r, m.view, at);
        NoDeeds(m.world);
      case _ => NoDeeds(m.world);
    }
    assert Queue(r, m.view) + [] == Queue(r, m.view) && [] + Queue(r, m'.view) == Queue(r, m'.view);
  }

  lemma NoDeeds(w: World)
    ensures Linked(w, []) == [] && After(w, []) == w
  {
  }

  /** First in, first out, over every run: what the reader was handed or had thrown away, followed by
      what is still buffered for it, is what the messages brought for it. */
  lemma {:induction false} FirstInFirstOut(r: Consumer, moments: seq<Moment>, events: seq<Event>)
    requires Run(moments, events) && forall e <- events :: Clean(r, e)
    ensures Queue(r, moments[0].view) + Arrived(r, moments, events) ==
              Taken(r, moments, events) + Queue(r, moments[|events|].view)
  {
    hide Queue, Happens, Clean, TakenBy, ArrivedIn, Charge, ChargedIn, RefundedBy;
    if events != [] {
      var n := |events| - 1;
      var ms, es := moments[..n + 1], events[..n];
      RunPrefix(moments, events);
      FirstInFirstOut(r, ms, es);
      StepKeepsOrder(r, moments[n], events[n], moments[n + 1]);
      Regroup(Queue(r, moments[0].view), Arrived(r, ms, es), ArrivedIn(r, moments[n], events[n]), Taken(r, ms, es),
              Queue(r, moments[n].view), TakenBy(r, moments[n], events[n]), Queue(r, moments[n + 1].view));
    }
  }

  lemma Regroup<T>(a: seq<T>, b: seq<T>, c: seq<T>, d: seq<T>, e: seq<T>, f: seq<T>, g: seq<T>)
    requires a + b == d + e && e + c == f + g
    ensures a + (b + c) == (d + f) + g
  {
    assert a + (b + c) == (a + b) + c;
    assert (d + e) + c == d + (e + c);
  }

  /** What the reader's own reads handed it. */
  ghost function HandedBy(r: Consumer, e: Event): seq<byte> {
    match e
    case Read(k, _, got) => if k.r == r && |k.held| <= |got| then got[|k.held|..] else []
    case _ => []
  }

  ghost function Handed(r: Consumer, events: seq<Event>): seq<byte> {
    if events == [] then [] else
    var n := |events| - 1;
    Handed(r, events[..n]) + HandedBy(r, events[n])
  }

  lemma {:induction false} FlushThins(id: u32, streamId: int, v: seq<Pkt>)
    ensures Thinned(v, Unflushed(id, streamId, v))
  {
    if v != [] {
      var n := |v| - 1;
      FlushThins(id, streamId, v[..n]);
      var kept := Unflushed(id, streamId, v)[|Unflushed(id, streamId, v[..n])|..];
      assert [v[n]][1..] == [];
      ThinnedNow([v[n]]);
      ThinnedConcat(v[..n], Unflushed(id, streamId, v[..n]), [v[n]], kept);
      assert v == v[..n] + [v[n]];
      assert Unflushed(id, streamId, v) == Unflushed(id, streamId, v[..n]) + kept;
    }
  }

  lemma StepThins(m: Moment, e: Event, m': Moment)
    requires Happens(m, e, m')
    ensures Thinned(m.view + LinksIn(m, e), m'.view)
  {
    hide Queue, Charge, Others, Thinned, Unflushed, After, Linked, Asked, Owed, Moded, ByReader;
    assert m.view + [] == m.view;
    match e {
      case Read(k, deeds, got) =>
      case Flush(id, streamId, refund) =>
        AskedLinks(m.world, id, refund, false);
        FlushThins(id, streamId, m.view);
      case Reflush(id, refund) =>
        AskedLinks(m.world, id, refund, true);
        ThinnedNow(m.view);
      case Other(deeds) => ThinnedNow(m'.view);
      case Ask(at) =>
        NoDeeds(m.world);
        ThinnedAt(m.view, at, 0);
      case _ =>
        NoDeeds(m.world);
        ThinnedNow(m.view);
    }
  }

  lemma StepKeepsWithin(r: Consumer, m: Moment, e: Event, m': Moment)
    requires Happens(m, e, m')
    ensures Within(Queue(r, m.view) + ArrivedIn(r, m, e), HandedBy(r, e) + Queue(r, m'.view))
  {
    hide Queue, Charge, Others, Thinned, Unflushed, Within, Matches, After, Linked, Asked, Owed, Moded, ByReader;
    hide Happens, Came;
    LinkedIsWhatCame(m.world, DeedsOf(e), r);
    if e.Read? && e.k.r == r {
      ReadHappens(m, e, m');
      OwnRead(r, m.view, e.k.held, Linked(m.world, e.deeds), m'.view, e.got, Refunds(r.id, e.deeds));
      WithinNow(Queue(r, m.view) + ArrivedIn(r, m, e));
    } else {
      QueueConcat(r, m.view, LinksIn(m, e));
      StepThins(m, e, m');
      ThinnedQueue(r, m.view + LinksIn(m, e), m'.view);
      assert [] + Queue(r, m'.view) == Queue(r, m'.view);
    }
  }

  lemma ReadHappens(m: Moment, e: Event, m': Moment)
    requires Happens(m, e, m') && e.Read?
    ensures Progress(e.k.r, m.view, e.k.held, Linked(m.world, e.deeds), m'.view, e.got, Refunds(e.k.r.id, e.deeds))
    ensures m'.world == After(m.world, e.deeds) && ByReader(e.k, e.deeds)
  {
    hide Progress, After, Linked, ByReader;
    assert Refunds(e.k.r.id, e.deeds) + 0 == Refunds(e.k.r.id, e.deeds);
  }

  /** Whoever else reads the same packets and whatever is flushed, over every run a reader is handed
      bytes in the order in which messages brought them, none of them twice, and so it goes on. */
  lemma {:induction false} NeverOutOfOrder(r: Consumer, moments: seq<Moment>, events: seq<Event>)
    requires Run(moments, events)
    ensures Within(Queue(r, moments[0].view) + Arrived(r, moments, events), Handed(r, events) + Queue(r, moments[|events|].view))
  {
    hide Queue, Happens, HandedBy, ArrivedIn, Within;
    if events == [] {
      var q := Queue(r, moments[0].view);
      WithinNow(q);
      assert q + [] == q && [] + q == q;
    } else {
      var n := |events| - 1;
      var ms, es := moments[..n + 1], events[..n];
      RunPrefix(moments, events);
      NeverOutOfOrder(r, ms, es);
      StepKeepsWithin(r, moments[n], events[n], moments[n + 1]);
      WithinOn(Queue(r, moments[0].view), Arrived(r, ms, es), ArrivedIn(r, moments[n], events[n]), Handed(r, es),
               Queue(r, moments[n].view), HandedBy(r, events[n]), Queue(r, moments[n + 1].view));
    }
  }

  lemma WithinOn(a: seq<byte>, b: seq<byte>, c: seq<byte>, d: seq<byte>, e: seq<byte>, f: seq<byte>, g: seq<byte>)
    requires Within(a + b, d + e) && Within(e + c, f + g)
    ensures Within(a + (b + c), (d + f) + g)
  {
    hide Within;
    WithinNow(c);
    WithinNow(d);
    WithinConcat(a + b, d + e, c, c);
    WithinConcat(d, d, e + c, f + g);
    Associative(a, b, c);
    Associative(d, e, c);
    Associative(d, f, g);
    WithinThen((a + b) + c, (d + e) + c, d + (f + g));
  }

  /** The window adjustments the reader's calls ask for in the event, those repeated not counted, or what
      is given up to a flush, which refunds for itself. */
  ghost function RefundedBy(r: Consumer, m: Moment, e: Event): int {
    match e
    case Read(k, deeds, _) => if k.r == r then Refunds(r.id, deeds) else 0
    case Flush(id, streamId, _) => if Takes(r, id, streamId) then Charge(r, m.view) else 0
    case _ => 0
  }

  ghost function ChargedIn(r: Consumer, m: Moment, e: Event): int {
    AllDue(m.world, DeedsOf(e), r)
  }

  ghost function Repaid(r: Consumer, moments: seq<Moment>, events: seq<Event>): int
    requires |moments| == |events| + 1
  {
    if events == [] then 0 else
    var n := |events| - 1;
    Repaid(r, moments[..n + 1], events[..n]) + RefundedBy(r, moments[n], events[n])
  }

  ghost function Charged(r: Consumer, moments: seq<Moment>, events: seq<Event>): int
    requires |moments| == |events| + 1
  {
    if events == [] then 0 else
    var n := |events| - 1;
    Charged(r, moments[..n + 1], events[..n]) + ChargedIn(r, moments[n], events[n])
  }

  /** Every packet is refunded exactly once, over every run: the window adjustments asked for and what is
      still linked make up what the messages brought. */
  lemma {:induction false} RefundedOnce(r: Consumer, moments: seq<Moment>, events: seq<Event>)
    requires Run(moments, events) && forall e <- events :: Clean(r, e)
    ensures Charge(r, moments[0].view) + Charged(r, moments, events) ==
              Repaid(r, moments, events) + Charge(r, moments[|events|].view)
  {
    hide Charge, Happens, Clean, RefundedBy, ChargedIn, Queue, TakenBy, ArrivedIn;
    if events != [] {
      var n := |events| - 1;
      RunPrefix(moments, events);
      RefundedOnce(r, moments[..n + 1], events[..n]);
      StepKeepsOrder(r, moments[n], events[n], moments[n + 1]);
    }
  }

  /** A read, called anew or repeated, makes one more event of a run. */
  method ReadMore(s: Session, c: Channel, buf: array<byte>, ghost moments: seq<Moment>, ghost events: seq<Event>)
    returns (res: Code, ghost moments': seq<Moment>, ghost events': seq<Event>)
    requires s.Valid() && s.connected && c in s.channels
    requires c.readState == Idle || CanResume(s, c, 0, buf.Length)
    requires Run(moments, events) && moments[|events|] == Moment(s.World(), s.packets.view)
    modifies s`sends, s`sent, s`packAddState, s`packAddChannel, s`connected, s`incoming, s`pending
    modifies s.packets, s.packets.Objects(), buf
    modifies s.channels`remoteWindow, s.channels`adjustQueue, s.channels`adjustState, s.channels`adjustAdjust,
             s.channels`remoteEof, s.channels`remoteClose, s.channels`localWindow, s.channels`exitStatus
    modifies c`readState, c`readPacket, c`readNext, c`readBytesRead, c`readBlock
    ensures s.Valid() && fresh(s.packets.Objects() - old(s.packets.Objects()))
    ensures ReadBy(Consumer(c.localId, 0, c.ignoreMode), old(s.packets.Rolled()), s.packets.Rolled())
    ensures c.readState == Idle || CanResume(s, c, 0, buf.Length)
    ensures Run(moments', events') && |events'| == |events| + 1 && moments'[0] == moments[0]
    ensures moments'[|events'|] == Moment(s.World(), s.packets.view)
  {
    hide InStep, NoneMatches, Session.Valid, Paused, ReadBy, Run, Explained, Session.World, CallAt;
    ghost var k, deeds;
    CallIs(s, c, buf);
    res, k, deeds := ReadEx(s, c, 0, buf, buf.Length);
    ghost var e := Read(k, deeds, Got(res, c, buf));
    moments', events' := moments + [Moment(s.World(), s.packets.view)], events + [e];
    OneMore(moments, events, e, Moment(s.World(), s.packets.view));
  }

  /** So does a write. */
  method WriteMore(s: Session, c: Channel, streamId: u32, data: seq<byte>, ghost from: ChannelWrite.Standing,
                   ghost moments: seq<Moment>, ghost events: seq<Event>)
    returns (res: Code, ghost to: ChannelWrite.Standing, ghost moments': seq<Moment>, ghost events': seq<Event>)
    requires s.Valid() && s.connected && c in s.channels && c.localPacketSize > 0 && |data| < TWO32
    requires ChannelWrite.StandsAt(c, streamId, from) && ChannelWrite.Sits(data, from)
    requires Run(moments, events) && moments[|events|] == Moment(s.World(), s.packets.view)
    modifies s`sends, s`sent, s`packAddState, s`packAddChannel, s`connected, s`incoming, s`pending
    modifies s.packets, s.packets.Objects()
    modifies s.channels`remoteWindow, s.channels`adjustQueue, s.channels`adjustState, s.channels`adjustAdjust,
             s.channels`remoteEof, s.channels`remoteClose, s.channels`localWindow, s.channels`exitStatus
    modifies c`writeState, c`writePacket, c`writeBufwrite, c`writeBufwrote
    ensures s.Valid() && fresh(s.packets.Objects() - old(s.packets.Objects()))
    ensures ChannelWrite.OnlyMore(old(s.packets.Rolled()), s.packets.Rolled())
    ensures res != Error ==> ChannelWrite.StandsAt(c, streamId, to) && ChannelWrite.Sits(data, to)
    ensures Run(moments', events') && |events'| == |events| + 1 && moments'[0] == moments[0]
    ensures moments'[|events'|] == Moment(s.World(), s.packets.view)
  {
    hide Session.Valid, Run, Session.World, ChannelWrite.Proper, ChannelWrite.Charged, ChannelWrite.Excused;
    hide ChannelWrite.Loaded;
    ghost var done, deeds;
    ghost var m := Moment(s.World(), s.packets.view);
    res, to, done, deeds := ChannelWrite.WriteEx(s, c, streamId, data, from);
    ghost var m' := Moment(s.World(), s.packets.view);
    assert Happens(m, Other(deeds), m');
    moments', events' := moments + [m'], events + [Other(deeds)];
    OneMore(moments, events, Other(deeds), m');
  }

  /** And a flush, called anew or repeated. */
  method FlushMore(s: Session, c: Channel, streamId: int, ghost moments: seq<Moment>, ghost events: seq<Event>)
    returns (res: Code, ghost moments': seq<Moment>, ghost events': seq<Event>)
    requires s.Valid() && c in s.channels && (c.flushState == Idle || c.flushState == Created)
    requires forall p <- s.packets.view :: Addressed(p.data)
    requires Run(moments, events) && moments[|events|] == Moment(s.World(), s.packets.view)
    modifies s`sends, s`sent, s.packets, s.packets.Objects()
    modifies c`flushState, c`flushRefundBytes, c`flushFlushBytes
    modifies c`remoteWindow, c`adjustQueue, c`adjustState, c`adjustAdjust
    ensures s.Valid() && FlushedBy(c.localId, streamId, old(s.packets.Rolled()), s.packets.Rolled())
    ensures Run(moments', events') && |events'| == |events| + 1 && moments'[0] == moments[0]
    ensures moments'[|events'|] == Moment(s.World(), s.packets.view)
  {
    hide Session.Valid, Run, Session.World, After, Unflushed, Owed, Thrown, IsTakenForAgain, FlushedBy;
    ghost var m, again := Moment(s.World(), s.packets.view), c.flushState == Created;
    res := FlushEx(s, c, streamId);
    ghost var m' := Moment(s.World(), s.packets.view);
    ghost var e := if again then Reflush(c.localId, c.flushRefundBytes) else Flush(c.localId, streamId, c.flushRefundBytes);
    assert Happens(m, e, m');
    moments', events' := moments + [m'], events + [e];
    OneMore(moments, events, e, m');
  }

  lemma CallIs(s: Session, c: Channel, buf: array<byte>)
    requires c.readState == Idle || CanResume(s, c, 0, buf.Length)
    ensures c.readState == Jump1 ==> c.readPacket != null && Refundable(c.readPacket.data, 0) && c.readBytesRead <= buf.Length
    ensures var k := CallAt(s, c, 0, buf);
            k.world == s.World() && k.view == s.packets.view && k.r == Consumer(c.localId, 0, c.ignoreMode)
  {
    hide Session.World;
  }

  lemma OneMore(moments: seq<Moment>, events: seq<Event>, e: Event, m: Moment)
    requires Run(moments, events) && Happens(moments[|events|], e, m)
    ensures Run(moments + [m], events + [e]) && |moments| == |events| + 1
  {
    hide Happens;
    var ms, es := moments + [m], events + [e];
    forall i | 0 <= i < |es|
      ensures Happens(ms[i], es[i], ms[i + 1])
    {
      if i < |events| {
        assert Happens(moments[i], events[i], moments[i + 1]);
      }
    }
  }

  /** The read of one channel has been interrupted; another channel is read, and the first read is
      repeated, which it may be if the packet it goes on with is not one for the second reader. The two
      calls make a run. */
  method Interleaved(s: Session, a: Channel, b: Channel, bufA: array<byte>, bufB: array<byte>)
    returns (ghost moments: seq<Moment>, ghost events: seq<Event>)
    requires s.Valid() && s.connected && a in s.channels && b in s.channels && a != b && bufA != bufB
    requires a.readState == Jump1 && CanResume(s, a, 0, bufA.Length) && b.readState == Idle
    requires a.readNext == null || !Matches(Consumer(b.localId, 0, b.ignoreMode), a.readNext.data)
    modifies s`sends, s`sent, s`packAddState, s`packAddChannel, s`connected, s`incoming, s`pending
    modifies s.packets, s.packets.Objects(), bufA, bufB
    modifies s.channels`remoteWindow, s.channels`adjustQueue, s.channels`adjustState, s.channels`adjustAdjust,
             s.channels`remoteEof, s.channels`remoteClose, s.channels`localWindow, s.channels`exitStatus
    modifies a`readState, a`readPacket, a`readNext, a`readBytesRead, a`readBlock
    modifies b`readState, b`readPacket, b`readNext, b`readBytesRead, b`readBlock
    ensures Run(moments, events) && moments[0] == old(Moment(s.World(), s.packets.view))
    ensures moments[|events|] == Moment(s.World(), s.packets.view)
  {
    hide Session.Valid, Held, Matches, Refundable, ReadBy, Aging, Run, Session.World;
    ghost var roll, next := s.packets.Rolled(), a.readNext;
    AgingNow(s);
    RunStarts(Moment(s.World(), s.packets.view));
    var res;
    res, moments, events := ReadMore(s, b, bufB, [Moment(s.World(), s.packets.view)], []);
    PlaceKept(Consumer(a.localId, 0, a.ignoreMode), next, Consumer(b.localId, 0, b.ignoreMode), roll, s.packets.Rolled());
    if s.connected {
      res, moments, events := ReadMore(s, a, bufA, moments, events);
    }
  }

  lemma RunStarts(m: Moment)
    ensures Run([m], [])
  {
  }

  lemma AgingNow(s: Session)
    requires s.Valid()
    ensures Aging(s.packets.Rolled())
  {
  }
}
