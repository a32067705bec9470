/** A channel's receiving window over whole runs: nothing of it is lost, and it comes back. */
module RunWindows {
  import opened Bytes
  import opened Brigade
  import opened Flow
  import opened ByteQueue
  import opened Scripts
  import opened ChannelWorld
  import opened ChannelFlush
  import opened ChannelRead
  import opened ReadRuns

  /** The receiving side of a channel. */
  function FlowOf(w: World, id: u32): State
    requires Find(w.views, id).Some?
  {
    w.views[Find(w.views, id).value].flow
  }

  /** The window the peer has been given, is being given, or will be given with the next adjustment. */
  function Reserve(f: State): nat {
    f.window + f.queue + if f.underway.Some? then f.underway.value else 0
  }

  /** While an adjustment is under way nothing is queued. */
  predicate Settled(f: State) {
    f.underway.Some? ==> f.queue == 0
  }

  /** The payload of a channel's packets. */
  function Payloads(id: u32, ps: seq<Pkt>): nat {
    if ps == [] then 0 else
    (if IsData(ps[0].data) && IdOf(ps[0].data) == id then |ps[0].data| - HeadOf(ps[0].data) else 0) + Payloads(id, ps[1..])
  }

  lemma {:induction false} PayloadsConcat(id: u32, a: seq<Pkt>, b: seq<Pkt>)
    ensures Payloads(id, a + b) == Payloads(id, a) + Payloads(id, b)
  {
    hide IsData;
    if a == [] {
      assert a + b == b;
    } else {
      assert (a + b)[0] == a[0] && (a + b)[1..] == a[1..] + b;
      PayloadsConcat(id, a[1..], b);
    }
  }

  /** Up to multiples of 2^32 equal, and not more. */
  predicate Falls(from: int, to: int) {
    (from - to) % TWO32 == 0 && to <= from
  }

  lemma FallsThen(a: int, b: int, c: int)
    requires Falls(a, b) && Falls(b, c)
    ensures Falls(a, c)
  {
    var m, n := (a - b) / TWO32, (b - c) / TWO32;
    assert a - c == (m + n) * TWO32;
    Multiple(m + n);
  }

  lemma Multiple(m: int)
    ensures (m * TWO32) % TWO32 == 0
  {
  }

  lemma FallsShift(a: int, b: int, x: int)
    requires Falls(a, b)
    ensures Falls(a + x, b + x)
  {
  }

  lemma Add32Falls(a: u32, b: u32)
    ensures Falls(a + b, Add32(a, b))
  {
    assert a + b < 2 * TWO32;
  }

  /** An adjustment adds what it is called with to the reserve; one that resumes another adds nothing, if
      it is called with the same amount. */
  lemma AdjustReserve(f: State, a: u32, w: WriteOutcome)
    requires Settled(f) && (f.underway.Some? ==> f.underway.value == a)
    ensures var f' := Adjust(f, a, false, w).state;
            Settled(f') && Falls(Reserve(f) + if f.underway == None then a else 0, Reserve(f')) &&
            (f.queue < MINADJUST && w != Failed ==> f'.queue < MINADJUST)
  {
    Add32Falls(a, f.queue);
    Add32Falls(f.queue, a);
    Add32Falls(f.window, a);
    Add32Falls(f.window, Add32(a, f.queue));
    if f.underway == None && w == Sent {
      FallsShift(a + f.queue, Add32(a, f.queue), f.window);
      FallsThen(f.window + (a + f.queue), f.window + Add32(a, f.queue), Add32(f.window, Add32(a, f.queue)));
    }
  }

  /** One channel's value is replaced. */
  lemma FlowReplaced(w: World, w': World, i: nat, v: Chan, id: u32)
    requires i < |w.views| && w'.views == w.views[i := v] && v.localId == w.views[i].localId && Find(w.views, id).Some?
    ensures Find(w'.views, id) == Find(w.views, id)
    ensures FlowOf(w', id) == if Find(w.views, id) == Some(i) then v.flow else FlowOf(w, id)
  {
    FindKept(w.views, i, v, id);
  }

  /** The message is for the channel and brings data. */
  predicate BringsData(id: u32, data: seq<byte>) {
    WellFormed(data) && (data[0] == CHANNEL_DATA || data[0] == CHANNEL_EXTENDED_DATA) && IdOf(data) == id
  }

  /** Such a message is within the window, as far as it is within the packet size. */
  predicate FitsIn(f: State, n: nat) {
    n <= f.window || f.packetSize <= f.window
  }

  lemma LinkedElsewhere(o: Option<Chan>, data: seq<byte>, id: u32)
    requires WellFormed(data) && (!BringsData(id, data) || o == None || Ignores(o.value, data))
    ensures Payloads(id, LinkedBy(o, data)) == 0
  {
    hide U32Of, IsExitStatus;
    var links := LinkedBy(o, data);
    if links != [] {
      assert links[1..] == [];
      if data[0] == CHANNEL_DATA || data[0] == CHANNEL_EXTENDED_DATA {
        assert links[0].data[1..5] == data[1..5];
      }
    }
  }

  lemma LinkedPayload(v: Chan, data: seq<byte>, id: u32)
    requires WellFormed(data) && !Ignores(v, data)
    ensures BringsData(id, data) && FitsIn(v.flow, |data| - HeadOf(data)) ==>
              Reserve(Heard(v, data).flow) + Payloads(id, LinkedBy(Some(v), data)) == Reserve(v.flow)
    ensures !BringsData(IdOf(data), data) ==> Heard(v, data).flow == v.flow
    ensures Settled(v.flow) ==> Settled(Heard(v, data).flow)
    ensures Heard(v, data).flow.queue == v.flow.queue
  {
    hide U32Of, IsExitStatus;
    var links := LinkedBy(Some(v), data);
    if links != [] {
      assert links[1..] == [];
      if data[0] == CHANNEL_DATA || data[0] == CHANNEL_EXTENDED_DATA {
        assert links[0].data[1..5] == data[1..5];
      }
    }
  }

  /** A packet read leaves the channel's books alone: no data of it is ignored, or cut for want of window. */
  predicate PlainHearing(w: World, id: u32)
    requires Find(w.views, id).Some?
  {
    if w.adding.Some? then IdOf(w.adding.value) != id else
    var next := NextIn(w.incoming);
    w.connected && next.Payload? && BringsData(id, next.data) ==>
      !Ignores(w.views[Find(w.views, id).value], next.data) && FitsIn(FlowOf(w, id), |next.data| - HeadOf(next.data))
  }

  lemma RefundedElsewhere(w: World, k: nat, a: u32, id: u32)
    requires k < |w.views| && Find(w.views, id).Some? && Find(w.views, id) != Some(k)
    ensures Find(Refunded(w, k, a).views, id) == Find(w.views, id) && FlowOf(Refunded(w, k, a), id) == FlowOf(w, id)
  {
    hide Adjust, Writes, Announcement;
    FlowReplaced(w, Refunded(w, k, a), k, w.views[k].(flow := Adjustment(w, k, a).state), id);
  }

  lemma IgnoredBrings(v: Chan, data: seq<byte>)
    requires WellFormed(data) && Ignores(v, data)
    ensures BringsData(IdOf(data), data) && 13 <= |data| < TWO32
  {
  }

  lemma ToldKeeps(w: World, data: seq<byte>, id: u32)
    requires WellFormed(data) && Find(w.views, id).Some? && Settled(FlowOf(w, id))
    requires BringsData(id, data) ==>
               !Ignores(w.views[Find(w.views, id).value], data) && FitsIn(FlowOf(w, id), |data| - HeadOf(data))
    ensures var w' := Told(w, data);
            && Find(w'.views, id) == Find(w.views, id) && Settled(FlowOf(w', id))
            && Reserve(FlowOf(w', id)) + Payloads(id, LinkedBy(OwnerOf(w, data), data)) == Reserve(FlowOf(w, id))
            && FlowOf(w', id).queue == FlowOf(w, id).queue
  {
    hide Heard, Refunded, TakenForAgain, Ignores, WellFormed, LinkedBy, IdOf, Payloads, Reserve;
    var k := Find(w.views, IdOf(data));
    if k == None {
      LinkedElsewhere(None, data, id);
    } else if Ignores(w.views[k.value], data) {
      IgnoredBrings(w.views[k.value], data);
      LinkedElsewhere(Some(w.views[k.value]), data, id);
      RefundedElsewhere(w, k.value, |data| - 13, id);
    } else {
      if !BringsData(id, data) {
        LinkedElsewhere(Some(w.views[k.value]), data, id);
      }
      LinkedPayload(w.views[k.value], data, id);
      FlowReplaced(w, Told(w, data), k.value, Heard(w.views[k.value], data), id);
    }
  }

  lemma HearingKeeps(w: World, id: u32)
    requires Find(w.views, id).Some? && Settled(FlowOf(w, id)) && PlainHearing(w, id)
    ensures var w' := Listened(w);
            && Find(w'.views, id) == Find(w.views, id) && Settled(FlowOf(w', id))
            && Reserve(FlowOf(w', id)) + Payloads(id, ReadLinks(w)) == Reserve(FlowOf(w, id))
            && FlowOf(w', id).queue == FlowOf(w, id).queue
  {
    hide Heard, Refunded, TakenForAgain, Ignores, WellFormed, LinkedBy, IdOf, Reserve, Told;
    if w.adding.Some? {
      var data := w.adding.value;
      var k := Find(w.views, IdOf(data));
      if k.Some? && 13 <= |data| < TWO32 {
        RefundedElsewhere(w, k.value, |data| - 13, id);
      }
    } else if w.connected && NextIn(w.incoming).Payload? && WellFormed(NextIn(w.incoming).data) {
      ToldKeeps(w.(incoming := Later(w.incoming)), NextIn(w.incoming).data, id);
    }
  }

  /** What is done keeps a channel's books: packets are read so; a window adjustment is not begun while
      another is under way, and goes on only with its own amount. */
  predicate PlainDeed(w: World, d: Deed, id: u32)
    requires Find(w.views, id).Some?
  {
    match d
    case Listen => PlainHearing(w, id)
    case Refund(i, a) => i == id ==> FlowOf(w, id).underway == None
    case Repeat(i, a) => i == id ==> FlowOf(w, id).underway == Some(a)
    case Say(_, _, _) => true
  }

  /** An adjustment of the channel's window cannot be sent. */
  predicate Fails(w: World, d: Deed, id: u32) {
    (d.Refund? || d.Repeat?) && d.id == id && NextSend(w.sends) == Failed
  }

  function Asks(d: Deed, id: u32): nat {
    if d.Refund? && d.id == id then d.amount else 0
  }

  function Brings(w: World, d: Deed): seq<Pkt> {
    if d.Listen? then ReadLinks(w) else []
  }

  lemma RefundKeeps(w: World, k: nat, a: u32, id: u32)
    requires k < |w.views| && Find(w.views, id) == Some(k) && Settled(FlowOf(w, id))
    requires FlowOf(w, id).underway.Some? ==> FlowOf(w, id).underway.value == a
    ensures var f, w' := FlowOf(w, id), Refunded(w, k, a);
            && Find(w'.views, id) == Find(w.views, id) && Settled(FlowOf(w', id))
            && Falls(Reserve(f) + if f.underway == None then a else 0, Reserve(FlowOf(w', id)))
            && (f.queue < MINADJUST && NextSend(w.sends) != Failed ==> FlowOf(w', id).queue < MINADJUST)
  {
    hide Adjust, Writes, Announcement, Reserve, Falls;
    AdjustReserve(FlowOf(w, id), a, NextSend(w.sends));
    FlowReplaced(w, Refunded(w, k, a), k, w.views[k].(flow := Adjustment(w, k, a).state), id);
  }

  lemma DeedKeeps(w: World, d: Deed, id: u32)
    requires Find(w.views, id).Some? && Settled(FlowOf(w, id)) && PlainDeed(w, d, id)
    ensures var w' := Done(w, d);
            && Find(w'.views, id) == Find(w.views, id) && Settled(FlowOf(w', id))
            && Falls(Reserve(FlowOf(w, id)) + Asks(d, id), Reserve(FlowOf(w', id)) + Payloads(id, Brings(w, d)))
            && (FlowOf(w, id).queue < MINADJUST && !Fails(w, d, id) ==> FlowOf(w', id).queue < MINADJUST)
  {
    hide Refunded, Listened, Reserve, Payloads;
    if d == Listen {
      HearingKeeps(w, id);
    } else {
      NoPayload(id);
      var k := Find(w.views, d.id);
      if k.Some? {
        if d.Say? {
          if |d.part| < TWO32 && NextSend(w.sends) == Sent {
            var v := w.views[k.value];
            FlowReplaced(w, Done(w, d), k.value, v.(localWindow := Sub32(v.localWindow, |d.part|)), id);
          }
        } else if d.id == id {
          RefundKeeps(w, k.value, d.amount, id);
        } else {
          RefundedElsewhere(w, k.value, d.amount, id);
        }
      }
    }
  }

  lemma NoPayload(id: u32)
    ensures Payloads(id, []) == 0
  {
  }

  ghost predicate PlainDeeds(w: World, deeds: seq<Deed>, id: u32) {
    deeds == [] ||
    var n := |deeds| - 1;
    var w1 := After(w, deeds[..n]);
    PlainDeeds(w, deeds[..n], id) && Find(w1.views, id).Some? && PlainDeed(w1, deeds[n], id)
  }

  lemma {:induction false} DeedsKeep(w: World, deeds: seq<Deed>, id: u32)
    requires Find(w.views, id).Some? && Settled(FlowOf(w, id)) && PlainDeeds(w, deeds, id)
    ensures var w' := After(w, deeds);
            && Find(w'.views, id) == Find(w.views, id) && Settled(FlowOf(w', id))
            && Falls(Reserve(FlowOf(w, id)) + Refunds(id, deeds), Reserve(FlowOf(w', id)) + Payloads(id, Linked(w, deeds)))
  {
    hide After, Linked, Refunds, Payloads, PlainDeed, FlowOf, Reserve, Falls, Settled;
    if deeds == [] {
      NoPayload(id);
      NothingAsked(w, id);
      FallsNow(Reserve(FlowOf(w, id)));
    } else {
      var n := |deeds| - 1;
      var w1, d := After(w, deeds[..n]), deeds[n];
      DeedsKeep(w, deeds[..n], id);
      DeedKeeps(w1, d, id);
      LastDeed(w, deeds, id);
      var asked, came := Refunds(id, deeds[..n]), Payloads(id, Linked(w, deeds[..n]));
      var r, r1, r2 := Reserve(FlowOf(w, id)), Reserve(FlowOf(w1, id)), Reserve(FlowOf(Done(w1, d), id));
      FallsShift(r + asked, r1 + came, Asks(d, id));
      FallsShift(r1 + Asks(d, id), r2 + Payloads(id, Brings(w1, d)), came);
      FallsThen(r + asked + Asks(d, id), r1 + Asks(d, id) + came, r2 + Payloads(id, Brings(w1, d)) + came);
    }
  }

  lemma LastDeed(w: World, deeds: seq<Deed>, id: u32)
    requires deeds != []
    ensures var n := |deeds| - 1;
            var w1, d := After(w, deeds[..n]), deeds[n];
            && After(w, deeds) == Done(w1, d) && Refunds(id, deeds) == Refunds(id, deeds[..n]) + Asks(d, id)
            && Payloads(id, Linked(w, deeds)) == Payloads(id, Linked(w, deeds[..n])) + Payloads(id, Brings(w1, d))
  {
    hide Done, ReadLinks;
    var n := |deeds| - 1;
    PayloadsConcat(id, Linked(w, deeds[..n]), Brings(After(w, deeds[..n]), deeds[n]));
  }

  ghost predicate NoneFails(w: World, deeds: seq<Deed>, id: u32) {
    forall i | 0 <= i < |deeds| :: !Fails(After(w, deeds[..i]), deeds[i], id)
  }

  /** As long as no adjustment fails, less than MINADJUST stays queued. */
  lemma {:induction false} QueueStaysSmall(w: World, deeds: seq<Deed>, id: u32)
    requires Find(w.views, id).Some? && Settled(FlowOf(w, id)) && PlainDeeds(w, deeds, id)
    requires NoneFails(w, deeds, id) && FlowOf(w, id).queue < MINADJUST
    ensures Find(After(w, deeds).views, id).Some? && FlowOf(After(w, deeds), id).queue < MINADJUST
  {
    hide Done, PlainDeed, FlowOf, Reserve, Falls, Settled, ReadLinks, Fails;
    if deeds != [] {
      var front := deeds[..|deeds| - 1];
      forall i | 0 <= i < |front|
        ensures !Fails(After(w, front[..i]), front[i], id)
      {
        assert front[..i] == deeds[..i];
      }
      QueueStaysSmall(w, front, id);
      DeedsKeep(w, front, id);
      DeedKeeps(After(w, front), deeds[|front|], id);
    }
  }

  lemma FallsNow(a: int)
    ensures Falls(a, a)
  {
  }

  /** A channel's window, and what of it the packets still linked take up. */
  ghost function Stock(m: Moment, id: u32): nat
    requires Find(m.world.views, id).Some?
  {
    Reserve(FlowOf(m.world, id)) + Payloads(id, m.view)
  }

  /** The event keeps a channel's books: its deeds do, its reader does not merge extended data, nothing
      of the channel is flushed, and nobody else adjusts its window. */
  ghost predicate Plain(m: Moment, e: Event, id: u32) {
    PlainDeeds(m.world, DeedsOf(e), id) &&
    match e
    case Read(k, _, _) => k.r.id == id && k.r.stream == 0 ==> k.r.mode != Merge
    case Flush(i, _, _) => i != id
    case Reflush(i, _) => i != id
    case Other(deeds) => Refunds(id, deeds) == 0
    case _ => true
  }

  lemma {:induction false} PayloadsSplit(r: Consumer, id: u32, v: seq<Pkt>)
    requires r.id == id && r.stream == 0 ==> r.mode != Merge
    ensures Payloads(id, v) == (if r.id == id then Charge(r, v) else 0) + Payloads(id, Others(r, v))
  {
    if v != [] {
      PayloadsSplit(r, id, v[1..]);
      if Matches(r, v[0].data) {
        assert Others(r, v) == [] + Others(r, v[1..]) == Others(r, v[1..]);
      } else {
        assert ([v[0]] + Others(r, v[1..]))[1..] == Others(r, v[1..]);
      }
    }
  }

  lemma {:induction false} RefundsOwn(k: Call, deeds: seq<Deed>, id: u32)
    requires ByReader(k, deeds) && k.r.id != id
    ensures Refunds(id, deeds) == 0
  {
    if deeds != [] {
      RefundsOwn(k, deeds[..|deeds| - 1], id);
    }
  }

  lemma {:induction false} UnflushedElsewhere(i: u32, streamId: int, v: seq<Pkt>, id: u32)
    requires i != id
    ensures Payloads(id, Unflushed(i, streamId, v)) == Payloads(id, v)
  {
    if v != [] {
      var n := |v| - 1;
      UnflushedElsewhere(i, streamId, v[..n], id);
      assert v == v[..n] + [v[n]];
      PayloadsConcat(id, v[..n], [v[n]]);
      PayloadsConcat(id, Unflushed(i, streamId, v[..n]), [v[n]]);
      assert [v[n]][1..] == [];
    }
  }

  lemma OutElsewhere(id: u32, v: seq<Pkt>, at: nat)
    requires at < |v| && !IsDataType(v[at].data)
    ensures Payloads(id, Without(v, at)) == Payloads(id, v)
  {
    assert v == v[..at] + ([v[at]] + v[at + 1..]);
    PayloadsConcat(id, v[..at], [v[at]] + v[at + 1..]);
    PayloadsConcat(id, [v[at]], v[at + 1..]);
    assert [v[at]][1..] == [];
    PayloadsConcat(id, v[..at], v[at + 1..]);
  }

  lemma ReadKeeps(m: Moment, e: Event, m': Moment, id: u32)
    requires Happens(m, e, m') && e.Read? && (e.k.r.id == id && e.k.r.stream == 0 ==> e.k.r.mode != Merge)
    ensures Payloads(id, m.view) + Payloads(id, LinksIn(m, e)) == Payloads(id, m'.view) + Refunds(id, e.deeds)
  {
    hide Queue, Thinned, Charge, Others, After, Linked, Refunds, Payloads, Happens, ByReader;
    ReadHappens(m, e, m');
    PayloadsConcat(id, m.view, LinksIn(m, e));
    PayloadsSplit(e.k.r, id, m.view + LinksIn(m, e));
    PayloadsSplit(e.k.r, id, m'.view);
    if e.k.r.id != id {
      RefundsOwn(e.k, e.deeds, id);
    }
  }

  lemma AskedFor(id: u32, refund: u32, again: bool, other: u32)
    requires id != other
    ensures Refunds(other, Asked(id, refund, again)) == 0
  {
    assert Asked(id, refund, again) != [] ==> Asked(id, refund, again)[..0] == [];
  }

  /** What an event does to the packets of a channel. */
  lemma PayloadsKept(m: Moment, e: Event, m': Moment, id: u32)
    requires Happens(m, e, m') && Plain(m, e, id)
    ensures Payloads(id, m.view) + Payloads(id, LinksIn(m, e)) == Payloads(id, m'.view) + Refunds(id, DeedsOf(e))
  {
    hide InStep, After, Linked, Refunds, Payloads, Asked, Owed, Unflushed, Moded, PlainDeeds;
    NoPayload(id);
    match e {
      case Read(k, deeds, got) => ReadKeeps(m, e, m', id);
      case Flush(i, streamId, refund) =>
        AskedLinks(m.world, i, refund, false);
        AskedFor(i, refund, false, id);
        UnflushedElsewhere(i, streamId, m.view, id);
      case Reflush(i, refund) =>
        AskedLinks(m.world, i, refund, true);
        AskedFor(i, refund, true, id);
      case Other(deeds) => PayloadsConcat(id, m.view, Linked(m.world, deeds));
      case Ask(at) =>
        NothingAsked(m.world, id);
        OutElsewhere(id, m.view, at);
      case _ => NothingAsked(m.world, id);
    }
  }

  lemma NothingAsked(w: World, id: u32)
    ensures Linked(w, []) == [] && After(w, []) == w && Refunds(id, []) == 0
  {
  }

  lemma ModedKeeps(w: World, i: u32, mode: ExtMode, id: u32)
    requires Find(w.views, id).Some?
    ensures var w' := Moded(w, i, mode);
            && Find(w'.views, id) == Find(w.views, id) && FlowOf(w', id).(mode := Normal) == FlowOf(w, id).(mode := Normal)
  {
    var k := Find(w.views, i);
    if k.Some? {
      var v := w.views[k.value];
      FlowReplaced(w, Moded(w, i, mode), k.value, v.(flow := v.flow.(mode := mode)), id);
    }
  }

  /** What it does to the channel. */
  lemma FlowKept(m: Moment, e: Event, m': Moment, id: u32)
    requires Happens(m, e, m') && Find(m.world.views, id).Some?
    ensures var w1 := After(m.world, DeedsOf(e));
            Find(w1.views, id).Some? ==>
              && Find(m'.world.views, id) == Find(w1.views, id)
              && FlowOf(m'.world, id).(mode := Normal) == FlowOf(w1, id).(mode := Normal)
  {
    hide Progress, ByReader, After, Linked, Asked, Owed, Unflushed, Moded;
    NothingAsked(m.world, id);
    if e.SetMode? {
      ModedKeeps(m.world, e.id, e.mode, id);
    } else if e.Open? {
      FindFirst(m.world.views, e.v, id);
    }
  }

  lemma ReserveMode(f: State, g: State)
    requires f.(mode := Normal) == g.(mode := Normal)
    ensures Reserve(f) == Reserve(g) && (Settled(f) <==> Settled(g))
  {
  }

  lemma StockKept(m: Moment, e: Event, m': Moment, id: u32)
    requires Happens(m, e, m') && Find(m.world.views, id).Some? && Settled(FlowOf(m.world, id)) && Plain(m, e, id)
    ensures Find(m'.world.views, id).Some? && Settled(FlowOf(m'.world, id)) && Falls(Stock(m, id), Stock(m', id))
  {
    hide Happens, After, Linked, Refunds, Payloads, FlowOf, Reserve, Settled, Falls;
    DeedsKeep(m.world, DeedsOf(e), id);
    PayloadsKept(m, e, m', id);
    FlowKept(m, e, m', id);
    var w1 := After(m.world, DeedsOf(e));
    ReserveMode(FlowOf(m'.world, id), FlowOf(w1, id));
    FallsShift(Reserve(FlowOf(m.world, id)) + Refunds(id, DeedsOf(e)), Reserve(FlowOf(w1, id)) + Payloads(id, LinksIn(m, e)),
               Payloads(id, m.view) - Refunds(id, DeedsOf(e)));
  }

  ghost predicate AllPlain(moments: seq<Moment>, events: seq<Event>, id: u32)
    requires |moments| == |events| + 1
  {
    forall i | 0 <= i < |events| :: Plain(moments[i], events[i], id)
  }

  lemma {:induction false} StockFalls(moments: seq<Moment>, events: seq<Event>, id: u32)
    requires Run(moments, events) && AllPlain(moments, events, id)
    requires Find(moments[0].world.views, id).Some? && Settled(FlowOf(moments[0].world, id))
    ensures var last := moments[|events|];
            && Find(last.world.views, id).Some? && Settled(FlowOf(last.world, id))
            && Falls(Stock(moments[0], id), Stock(last, id))
  {
    hide Happens, Plain, FlowOf, Stock, Settled, Falls;
    if events == [] {
      FallsNow(Stock(moments[0], id));
    } else {
      var n := |events| - 1;
      RunPrefix(moments, events);
      assert AllPlain(moments[..n + 1], events[..n], id) by { PlainPrefix(moments, events, id); }
      StockFalls(moments[..n + 1], events[..n], id);
      StockKept(moments[n], events[n], moments[n + 1], id);
      FallsThen(Stock(moments[0], id), Stock(moments[n], id), Stock(moments[n + 1], id));
    }
  }

  lemma PlainPrefix(moments: seq<Moment>, events: seq<Event>, id: u32)
    requires |moments| == |events| + 1 && AllPlain(moments, events, id) && events != []
    ensures var n := |events| - 1;
            AllPlain(moments[..n + 1], events[..n], id) && Plain(moments[n], events[n], id)
  {
    hide Plain;
    var n := |events| - 1;
    forall i | 0 <= i < n
      ensures Plain(moments[..n + 1][i], events[..n][i], id)
    {
      assert Plain(moments[i], events[i], id);
    }
  }

  /** No byte of a channel's window is lost or made up, over every run in which its packets are read
      without merging, whoever reads them, and adjustments that were interrupted are resumed as they were
      begun: window, queued and announced credit, and the payload still linked, stay the same sum. */
  lemma WindowConserved(moments: seq<Moment>, events: seq<Event>, id: u32)
    requires Run(moments, events) && AllPlain(moments, events, id)
    requires Find(moments[0].world.views, id).Some? && Settled(FlowOf(moments[0].world, id))
    requires Stock(moments[0], id) < TWO32
    ensures Find(moments[|events|].world.views, id).Some? && Stock(moments[|events|], id) == Stock(moments[0], id)
  {
    hide Happens, Plain, FlowOf, Stock, Settled;
    StockFalls(moments, events, id);
  }

  ghost predicate AllSent(moments: seq<Moment>, events: seq<Event>, id: u32)
    requires |moments| == |events| + 1
  {
    forall i | 0 <= i < |events| :: NoneFails(moments[i].world, DeedsOf(events[i]), id)
  }

  lemma {:induction false} LittleQueued(moments: seq<Moment>, events: seq<Event>, id: u32)
    requires Run(moments, events) && AllPlain(moments, events, id) && AllSent(moments, events, id)
    requires Find(moments[0].world.views, id).Some? && Settled(FlowOf(moments[0].world, id))
    requires FlowOf(moments[0].world, id).queue < MINADJUST
    ensures var w := moments[|events|].world; Find(w.views, id).Some? && FlowOf(w, id).queue < MINADJUST
  {
    hide Happens, Settled, NoneFails, After, FlowOf;
    if events != [] {
      var n := |events| - 1;
      var m, e, m' := moments[n], events[n], moments[n + 1];
      RunPrefix(moments, events);
      PlainPrefix(moments, events, id);
      assert NoneFails(m.world, DeedsOf(e), id);
      LittleQueued(moments[..n + 1], events[..n], id);
      StockFalls(moments[..n + 1], events[..n], id);
      QueueStaysSmall(m.world, DeedsOf(e), id);
      FlowKept(m, e, m', id);
    }
  }

  /** Nobody starves: whenever everything has been read and no adjustment is under way, the window is all
      it ever was but for MINADJUST - 1 bytes, if no adjustment has failed, and but for what is queued in
      any case. */
  lemma WindowComesBack(moments: seq<Moment>, events: seq<Event>, id: u32)
    requires Run(moments, events) && AllPlain(moments, events, id)
    requires Find(moments[0].world.views, id).Some? && Settled(FlowOf(moments[0].world, id))
    requires Stock(moments[0], id) < TWO32
    requires forall p <- moments[|events|].view :: !Carries(id, p.data)
    ensures Find(moments[|events|].world.views, id).Some?
    ensures var f := FlowOf(moments[|events|].world, id);
            f.underway == None ==>
              && f.window + f.queue == Stock(moments[0], id)
              && (AllSent(moments, events, id) && FlowOf(moments[0].world, id).queue < MINADJUST ==>
                    f.window > Stock(moments[0], id) - MINADJUST)
  {
    hide Happens, Plain, Settled, NoneFails, After;
    WindowConserved(moments, events, id);
    NothingLeft(id, moments[|events|].view);
    if AllSent(moments, events, id) && FlowOf(moments[0].world, id).queue < MINADJUST {
      LittleQueued(moments, events, id);
    }
  }

  lemma {:induction false} NothingLeft(id: u32, v: seq<Pkt>)
    requires forall p <- v :: !Carries(id, p.data)
    ensures Payloads(id, v) == 0
  {
    if v != [] {
      NothingLeft(id, v[1..]);
    }
  }
}
