/** Both ends of one direction of a channel, with data and window adjustments in flight: section 5.2
    of RFC 4254 over every interleaving. */
module FlowControl {
  import opened Bytes
  import opened Brigade
  import opened Flow

  datatype Chunk = Chunk(size: u32, ext: bool)

  /** The sender's window and packet limit, the receiver, what travels each way, and the packets
      still linked at the receiver. The last four are bookkeeping: the window the channel opened
      with; `gift`, credit beyond what was consumed; `surplus`, data the receiver did not charge
      for; `excess`, what the peer was promised beyond the receiver's own window. */
  datatype Link = Link(
    sender: u32, senderPacket: u32, receiver: State,
    data: seq<Chunk>, credits: seq<u32>, linked: seq<Chunk>,
    initial: u32, gift: int, surplus: int, excess: int)

  datatype Step =
    /** `libssh2_channel_write_ex` sends a chunk. */
    | Send(n: u32, ext: bool)
    /** A data message reaches `libssh2_packet_add`; `w` is for the refund in IGNORE mode. */
    | Deliver(w: WriteOutcome)
    /** A window-adjust message reaches the sender. */
    | Credit
    /** `libssh2_channel_receive_window_adjust`, on behalf of a packet just unlinked or not. */
    | Refund(take: Option<nat>, a: u32, force: bool, w: WriteOutcome)
    | SetMode(m: ExtMode)

  function Sum(cs: seq<Chunk>): nat {
    if cs == [] then 0 else cs[0].size + Sum(cs[1..])
  }

  function Total(xs: seq<u32>): nat {
    if xs == [] then 0 else xs[0] + Total(xs[1..])
  }

  /** What a refund of `a` bytes adds to the receiver's books. One that resumes another only replaces its
      amount. */
  function Gain(f: State, a: u32, w: WriteOutcome): int {
    match f.underway
    case None => a
    case Some(u) => if w == Again then 0 else a - u
  }

  /** A refund of `a` bytes at the receiver. */
  function Adjusting(l: Link, a: u32, force: bool, w: WriteOutcome): Link {
    var r := Adjust(l.receiver, a, force, w);
    var l1 := l.(receiver := r.state, gift := l.gift + Gain(l.receiver, a, w));
    match r.announced
    case None => l1
    case Some(amount) =>
      var credit := if l.receiver.underway.Some? then a else amount;
      l1.(credits := l.credits + [amount], excess := l.excess + amount - credit)
  }

  function Delivered(l: Link, w: WriteOutcome): Link
    requires l.data != []
  {
    var c := l.data[0];
    var (f, verdict) := Receive(l.receiver, c.size, c.ext);
    var charged := l.receiver.window - f.window;
    var l1 := l.(data := l.data[1..], receiver := f, surplus := l.surplus + c.size - charged);
    match verdict
    case Ignored => Adjusting(l1, c.size, false, w)
    case Dropped => l1
    case Kept(n) => l1.(linked := l.linked + [Chunk(n, c.ext)], gift := l.gift + n - charged)
  }

  function Refunded(l: Link, take: Option<nat>, a: u32, force: bool, w: WriteOutcome): Link
    requires take.Some? ==> take.value < |l.linked|
  {
    var size := if take.Some? then l.linked[take.value].size else 0;
    var rest := if take.Some? then Without(l.linked, take.value) else l.linked;
    Adjusting(l.(linked := rest, gift := l.gift - size), a, force, w)
  }

  predicate Enabled(l: Link, s: Step) {
    match s
    case Send(n, _) => n <= l.sender && n <= l.senderPacket
    case Deliver(_) => l.data != []
    case Credit => l.credits != []
    case Refund(take, _, _, _) => take.Some? ==> take.value < |l.linked|
    case SetMode(_) => true
  }

  function Do(l: Link, s: Step): Link
    requires Enabled(l, s)
  {
    match s
    case Send(n, ext) => l.(sender := l.sender - n, data := l.data + [Chunk(n, ext)])
    case Deliver(w) => Delivered(l, w)
    case Credit => l.(sender := Add32(l.sender, l.credits[0]), credits := l.credits[1..])
    case Refund(take, a, force, w) => Refunded(l, take, a, force, w)
    case SetMode(m) => l.(receiver := l.receiver.(mode := m))
  }

  /** A run: a list of steps, each possible when its turn comes. */
  predicate Runs(l: Link, steps: seq<Step>)
    decreases |steps|
  {
    steps == [] || (Enabled(l, steps[0]) && Runs(Do(l, steps[0]), steps[1..]))
  }

  function After(l: Link, steps: seq<Step>): Link
    requires Runs(l, steps)
    decreases |steps|
  {
    if steps == [] then l else After(Do(l, steps[0]), steps[1..])
  }

  /** No window is pushed past 2^32 - 1, the limit set by section 5.2 of RFC 4254. */
  predicate Fits(l: Link, s: Step)
    requires Enabled(l, s)
  {
    match s
    case Deliver(_) =>
      Receive(l.receiver, l.data[0].size, l.data[0].ext).1 == Ignored ==>
        l.receiver.window + l.receiver.queue + l.data[0].size < TWO32
    case Refund(_, a, _, _) => l.receiver.window + l.receiver.queue + a < TWO32
    case Credit => l.sender + l.credits[0] < TWO32
    case _ => true
  }

  predicate AlwaysFits(l: Link, steps: seq<Step>)
    requires Runs(l, steps)
    decreases |steps|
  {
    steps == [] || (Fits(l, steps[0]) && AlwaysFits(Do(l, steps[0]), steps[1..]))
  }

  /** A refund that resumes one under way is of its amount. */
  predicate Matched(l: Link, s: Step)
    requires Enabled(l, s)
  {
    match s
    case Deliver(_) =>
      Receive(l.receiver, l.data[0].size, l.data[0].ext).1 == Ignored && l.receiver.underway.Some? ==>
        l.receiver.underway.value == l.data[0].size
    case Refund(_, a, _, _) => l.receiver.underway.Some? ==> l.receiver.underway.value == a
    case _ => true
  }

  predicate AlwaysMatched(l: Link, steps: seq<Step>)
    requires Runs(l, steps)
    decreases |steps|
  {
    steps == [] || (Matched(l, steps[0]) && AlwaysMatched(Do(l, steps[0]), steps[1..]))
  }

  /** A channel just opened: both ends know the same window, the sender respects the packet size
      it was told. */
  predicate Fresh(l: Link) {
    && l.sender == l.receiver.window == l.initial && l.senderPacket <= l.receiver.packetSize
    && l.receiver.queue == 0 && l.receiver.underway == None
    && l.data == [] && l.credits == [] && l.linked == []
    && l.gift == 0 && l.surplus == 0 && l.excess == 0
  }

  /** Every byte of window is accounted for between the two ends. */
  predicate Balanced(l: Link) {
    l.receiver.window + l.excess == l.sender + Sum(l.data) + Total(l.credits) + l.surplus
  }

  predicate SmallChunks(l: Link) {
    l.senderPacket <= l.receiver.packetSize && forall i | 0 <= i < |l.data| :: l.data[i].size <= l.senderPacket
  }

  lemma {:induction false} SumAppend(cs: seq<Chunk>, c: Chunk)
    ensures Sum(cs + [c]) == Sum(cs) + c.size
  {
    if cs == [] {
      assert [] + [c] == [c];
    } else {
      assert (cs + [c])[1..] == cs[1..] + [c];
      SumAppend(cs[1..], c);
    }
  }

  lemma {:induction false} TotalAppend(xs: seq<u32>, x: u32)
    ensures Total(xs + [x]) == Total(xs) + x
  {
    if xs == [] {
      assert [] + [x] == [x];
    } else {
      assert (xs + [x])[1..] == xs[1..] + [x];
      TotalAppend(xs[1..], x);
    }
  }

  lemma {:induction false} SumWithout(cs: seq<Chunk>, i: nat)
    requires i < |cs|
    ensures Sum(Without(cs, i)) == Sum(cs) - cs[i].size
  {
    if i == 0 {
      assert Without(cs, 0) == cs[1..];
    } else {
      assert Without(cs, i)[1..] == Without(cs[1..], i - 1) && Without(cs, i)[0] == cs[0];
      SumWithout(cs[1..], i - 1);
    }
  }

  lemma AdjustingBalanced(l: Link, a: u32, force: bool, w: WriteOutcome)
    requires Balanced(l) && l.receiver.window + l.receiver.queue + a < TWO32
    ensures Balanced(Adjusting(l, a, force, w))
    ensures var l' := Adjusting(l, a, force, w);
            l'.data == l.data && l'.senderPacket == l.senderPacket && l'.receiver.packetSize == l.receiver.packetSize
  {
    var r := Adjust(l.receiver, a, force, w);
    if r.announced.Some? {
      TotalAppend(l.credits, r.announced.value);
    }
  }

  lemma DeliveryBalanced(l: Link, w: WriteOutcome)
    requires Balanced(l) && SmallChunks(l) && l.data != [] && Fits(l, Deliver(w))
    ensures Balanced(Delivered(l, w)) && SmallChunks(Delivered(l, w))
  {
    var c := l.data[0];
    if Receive(l.receiver, c.size, c.ext).1 == Ignored {
      AdjustingBalanced(l.(data := l.data[1..], surplus := l.surplus + c.size), c.size, false, w);
    }
  }

  /** No step upsets the balance, whatever the writes do. */
  lemma StepBalanced(l: Link, s: Step)
    requires Enabled(l, s) && Balanced(l) && SmallChunks(l) && Fits(l, s)
    ensures Balanced(Do(l, s)) && SmallChunks(Do(l, s))
  {
    hide Adjusting, Delivered, Receive, Sum, Without;
    match s
    case Send(n, ext) => SumAppend(l.data, Chunk(n, ext));
    case Deliver(w) => DeliveryBalanced(l, w);
    case Credit =>
    case Refund(take, a, force, w) =>
      var size := if take.Some? then l.linked[take.value].size else 0;
      var rest := if take.Some? then Without(l.linked, take.value) else l.linked;
      AdjustingBalanced(l.(linked := rest, gift := l.gift - size), a, force, w);
    case SetMode(_) =>
  }

  /** In every run the receiver's window, corrected by `excess`, is the sender's window plus
      everything in flight plus what was never charged. */
  lemma {:induction false} RunBalanced(l: Link, steps: seq<Step>)
    requires Runs(l, steps) && AlwaysFits(l, steps) && Balanced(l) && SmallChunks(l)
    ensures Balanced(After(l, steps)) && SmallChunks(After(l, steps))
    decreases |steps|
  {
    if steps != [] {
      StepBalanced(l, steps[0]);
      RunBalanced(Do(l, steps[0]), steps[1..]);
    }
  }

  /** A data message is cut short or thrown away for lack of window only if the peer was promised
      more than the receiver allows for. */
  lemma OverrunNeedsExcess(l: Link)
    requires Balanced(l) && SmallChunks(l) && l.data != []
    ensures var c := l.data[0];
            var verdict := Receive(l.receiver, c.size, c.ext).1;
            && (verdict == Ignored <==> l.receiver.mode == Ignore && c.ext)
            && (verdict != Ignored && verdict != Kept(c.size) && c.size > 0 ==> l.excess > l.surplus)
  {
  }

  function Underway(f: State): u32 {
    if f.underway.Some? then f.underway.value else 0
  }

  /** The books are closed: nothing is promised in excess, and the opening window plus all gifts is the
      window, what is linked, what is queued, and what is under way. */
  predicate Exact(l: Link) {
    && l.excess == 0 && l.surplus >= 0 && (l.receiver.underway.Some? ==> l.receiver.queue == 0)
    && l.initial + l.gift == l.receiver.window + Sum(l.linked) + l.receiver.queue + Underway(l.receiver)
  }

  /** Whoever resumes an adjustment, and with whatever amount: the books stay closed if and only if it is
      the amount under way. */
  lemma ResumedAdjustment(l: Link, a: u32, force: bool)
    requires l.receiver.underway.Some? && l.receiver.window + l.receiver.queue + a < TWO32
    ensures var l', u := Adjusting(l, a, force, Sent), l.receiver.underway.value;
            && l'.excess == l.excess + u - a && l'.credits == l.credits + [u]
            && l'.receiver.window == l.receiver.window + a
            && (Balanced(l) ==> Balanced(l'))
            && (Exact(l) ==> (Exact(l') <==> a == u))
  {
    if Balanced(l) {
      AdjustingBalanced(l, a, force, Sent);
    }
  }

  lemma AddFits(a: u32, b: u32)
    requires a + b < TWO32
    ensures Add32(a, b) == a + b && Add32(b, a) == a + b
  {
  }

  lemma AdjustSum(f: State, a: u32, force: bool, w: WriteOutcome)
    requires f.underway.Some? ==> f.underway.value == a && f.queue == 0
    requires f.window + f.queue + a < TWO32
    ensures var f' := Adjust(f, a, force, w).state;
            && (f'.underway.Some? ==> f'.queue == 0)
            && f'.window + f'.queue + Underway(f') == f.window + f.queue + Underway(f) + Gain(f, a, w)
  {
    hide Add32;
    AddFits(a, f.queue);
    AddFits(f.window, a);
    AddFits(f.window, a + f.queue);
  }

  lemma AdjustingExact(l: Link, a: u32, force: bool, w: WriteOutcome)
    requires l.receiver.underway.Some? ==> l.receiver.underway.value == a && l.receiver.queue == 0
    requires l.receiver.window + l.receiver.queue + a < TWO32
    ensures var l', f := Adjusting(l, a, force, w), l.receiver;
            && l' == l.(receiver := l'.receiver, credits := l'.credits, gift := l'.gift)
            && (l'.receiver.underway.Some? ==> l'.receiver.queue == 0)
            && l'.receiver.window + l'.receiver.queue + Underway(l'.receiver) - l'.gift ==
               f.window + f.queue + Underway(f) - l.gift
  {
    hide Gain, Underway;
    AdjustSum(l.receiver, a, force, w);
    AnnouncesIt(l.receiver, a, force, w);
  }

  lemma AnnouncesIt(f: State, a: u32, force: bool, w: WriteOutcome)
    requires f.underway.Some? ==> f.underway.value == a
    ensures var r := Adjust(f, a, force, w); r.announced.Some? && f.underway.Some? ==> r.announced == Some(a)
  {
    hide Add32;
  }

  /** Every step keeps the books closed if what it resumes is of the amount under way. */
  lemma StepExact(l: Link, s: Step)
    requires Enabled(l, s) && Exact(l) && SmallChunks(l) && Fits(l, s) && Matched(l, s)
    ensures Exact(Do(l, s))
  {
    hide Adjusting, Sum, Without;
    match s
    case Deliver(w) =>
      var c := l.data[0];
      var (f, verdict) := Receive(l.receiver, c.size, c.ext);
      if verdict.Ignored? {
        AdjustingExact(l.(data := l.data[1..], surplus := l.surplus + c.size), c.size, false, w);
      } else if verdict.Kept? {
        SumAppend(l.linked, Chunk(verdict.n, c.ext));
      }
    case Refund(take, a, force, w) =>
      var size := if take.Some? then l.linked[take.value].size else 0;
      var rest := if take.Some? then Without(l.linked, take.value) else l.linked;
      if take.Some? {
        SumWithout(l.linked, take.value);
      }
      AdjustingExact(l.(linked := rest, gift := l.gift - size), a, force, w);
    case _ =>
  }

  /** With closed books the sender's own window always fits. */
  lemma CreditFits(l: Link)
    requires Balanced(l) && Exact(l) && l.credits != []
    ensures Fits(l, Credit)
  {
  }

  /** Section 5.2 of RFC 4254 for all interleavings and interruptions: as long as adjustments under way are
      resumed with their own amount, a peer that writes within its window never has data cut short or
      thrown away, except for extended data in IGNORE mode, and no credit is created or destroyed. */
  lemma {:induction false} PeerNeverOverruns(l: Link, steps: seq<Step>)
    requires Runs(l, steps) && AlwaysFits(l, steps) && AlwaysMatched(l, steps)
    requires Balanced(l) && Exact(l) && SmallChunks(l)
    ensures var l' := After(l, steps);
            Balanced(l') && Exact(l') &&
            (l'.data != [] && l'.data[0].size > 0 ==>
               var f, c := l'.receiver, l'.data[0];
               Receive(f, c.size, c.ext) == if f.mode == Ignore && c.ext then (f, Ignored)
                                            else (f.(window := f.window - c.size), Kept(c.size)))
    decreases |steps|
  {
    if steps == [] {
      if l.data != [] {
        OverrunNeedsExcess(l);
      }
    } else {
      StepBalanced(l, steps[0]);
      StepExact(l, steps[0]);
      PeerNeverOverruns(Do(l, steps[0]), steps[1..]);
    }
  }

  /** Reading in NORMAL mode: every refund is for a packet just consumed, of its size and not forced, or
      resumes the one under way; its message goes out at once or later. */
  predicate PlainRead(l: Link, s: Step)
    requires Enabled(l, s)
  {
    match s
    case SetMode(m) => m != Ignore
    case Refund(take, a, force, w) =>
      && !force && w != Failed
      && (if l.receiver.underway == None then take.Some? && a == l.linked[take.value].size
          else take == None && l.receiver.underway == Some(a))
    case _ => true
  }

  predicate OnlyPlainReads(l: Link, steps: seq<Step>)
    requires Runs(l, steps)
    decreases |steps|
  {
    steps == [] || (PlainRead(l, steps[0]) && OnlyPlainReads(Do(l, steps[0]), steps[1..]))
  }

  /** What plain reading keeps: no gifts, nothing uncharged, less than MINADJUST held back. */
  predicate Plain(l: Link) {
    && Balanced(l) && Exact(l) && SmallChunks(l)
    && l.gift == 0 && l.surplus == 0 && l.receiver.queue < MINADJUST && l.receiver.mode != Ignore
  }

  lemma {:induction false} SumAtLeast(cs: seq<Chunk>, i: nat)
    requires i < |cs|
    ensures cs[i].size <= Sum(cs)
  {
    if i > 0 {
      SumAtLeast(cs[1..], i - 1);
    }
  }

  lemma StepPlain(l: Link, s: Step)
    requires Enabled(l, s) && Plain(l) && PlainRead(l, s)
    ensures Fits(l, s) && Plain(Do(l, s))
  {
    if s.Refund? && s.take.Some? {
      SumAtLeast(l.linked, s.take.value);
    }
    StepBalanced(l, s);
    StepExact(l, s);
    if s.Deliver? {
      OverrunNeedsExcess(l);
    }
  }

  /** Plain reading never starves the sender, however often its adjustments are interrupted: windows never
      exceed the opening one, and whenever everything is read and nothing travels or is under way the
      sender may send all but MINADJUST - 1 bytes of it. */
  lemma {:induction false} NoStarvation(l: Link, steps: seq<Step>)
    requires Runs(l, steps) && OnlyPlainReads(l, steps) && Plain(l)
    ensures var l' := After(l, steps);
            Plain(l') && AlwaysFits(l, steps) && l'.initial == l.initial &&
            l'.receiver.window + Sum(l'.linked) <= l.initial &&
            (l'.data == [] && l'.credits == [] && l'.linked == [] && l'.receiver.underway == None ==>
               l'.sender == l'.receiver.window > l.initial - 1024)
    decreases |steps|
  {
    if steps != [] {
      StepPlain(l, steps[0]);
      NoStarvation(Do(l, steps[0]), steps[1..]);
    }
  }

  lemma FreshIsPlain(l: Link)
    requires Fresh(l) && l.receiver.mode != Ignore
    ensures Plain(l)
  {
  }

  /** So an adjustment interrupted and then repeated by its caller closes the books just when nothing was
      queued: the peer is promised what was, the receiver credits itself with the caller's amount alone. */
  lemma InterruptedAdjustment(l: Link, a: u32, force: bool)
    requires Balanced(l) && l.receiver.underway == None && l.receiver.window + l.receiver.queue + a < TWO32
    requires force || a + l.receiver.queue >= MINADJUST
    requires a + l.receiver.queue > 0
    ensures var once := Adjusting(l, a, force, Again);
            var twice := Adjusting(once, a, force, Sent);
            twice.excess == l.excess + l.receiver.queue && Balanced(twice) &&
            twice.credits == l.credits + [a + l.receiver.queue] &&
            (twice.excess == l.excess <==> l.receiver.queue == 0)
  {
    AdjustingBalanced(l, a, force, Again);
    ResumedAdjustment(Adjusting(l, a, force, Again), a, force);
  }

  /** A link with nothing linked or in flight towards the receiver. */
  function Quiet(sender: u32, window: u32, queue: u32, underway: Option<u32>, credits: seq<u32>,
                 gift: int, excess: int): Link {
    Link(sender, 5000, State(window, queue, 5000, Normal, underway), [], credits, [], 5000, gift, 0, excess)
  }

  /** `n` bytes sent, received, read and refunded from a quiet link. */
  function SendAndRead(n: u32, w: WriteOutcome): seq<Step> {
    [Send(n, false), Deliver(Sent), Refund(Some(0), n, false, w)]
  }

  function AfterReading(l: Link, n: u32, w: WriteOutcome): Link
    requires n <= l.sender && n <= l.receiver.window
  {
    var spent := l.(sender := l.sender - n, receiver := l.receiver.(window := l.receiver.window - n), gift := l.gift - n);
    Adjusting(spent, n, false, w)
  }

  lemma ReadSteps(l: Link, n: u32, w: WriteOutcome) returns (l1: Link, l2: Link)
    requires l.data == [] && l.linked == []
    requires n <= l.sender && n <= l.senderPacket <= l.receiver.packetSize && 0 < n <= l.receiver.window
    requires l.receiver.queue + l.receiver.window < TWO32
    ensures Enabled(l, Send(n, false)) && Fits(l, Send(n, false)) && Do(l, Send(n, false)) == l1
    ensures Enabled(l1, Deliver(Sent)) && Fits(l1, Deliver(Sent)) && Do(l1, Deliver(Sent)) == l2
    ensures var s := Refund(Some(0), n, false, w); Enabled(l2, s) && Fits(l2, s) && Do(l2, s) == AfterReading(l, n, w)
  {
    hide Adjusting;
    l1 := Do(l, Send(n, false));
    assert l1.data == [Chunk(n, false)] && l1.data[1..] == [];
    l2 := Do(l1, Deliver(Sent));
    assert l2.linked == [Chunk(n, false)] && Without(l2.linked, 0) == [];
    var spent := l.(sender := l.sender - n, receiver := l.receiver.(window := l.receiver.window - n), gift := l.gift - n);
    assert l2.(linked := [], gift := l2.gift - n) == spent;
  }

  lemma ReadOnce(l: Link, n: u32, w: WriteOutcome, rest: seq<Step>)
    requires l.data == [] && l.linked == []
    requires n <= l.sender && n <= l.senderPacket <= l.receiver.packetSize && 0 < n <= l.receiver.window
    requires l.receiver.queue + l.receiver.window < TWO32
    requires var l' := AfterReading(l, n, w);
             Runs(l', rest) && AlwaysFits(l', rest)
    ensures var l' := AfterReading(l, n, w);
            var steps := SendAndRead(n, w) + rest;
            Runs(l, steps) && AlwaysFits(l, steps) && After(l, steps) == After(l', rest)
  {
    hide Runs, AlwaysFits, After, Do, AfterReading, Enabled, Fits;
    var l1, l2 := ReadSteps(l, n, w);
    var end := After(AfterReading(l, n, w), rest);
    var s3 := RunStep(l2, Refund(Some(0), n, false, w), rest, end);
    var s2 := RunStep(l1, Deliver(Sent), s3, end);
    var s1 := RunStep(l, Send(n, false), s2, end);
    assert s1 == SendAndRead(n, w) + rest;
  }

  /** A run in which that makes the receiver cut a rightful message short: 100 bytes read and their
      refund queued, the adjustment for 2000 more interrupted, then a full window sent. */
  lemma OverrunAfterInterruption()
    ensures var open := Quiet(5000, 5000, 0, None, [], 0, 0);
            var end := [Refund(None, 2000, false, Sent), Credit, Send(5000, false)];
            var steps := SendAndRead(100, Sent) + (SendAndRead(2000, Again) + end);
            Fresh(open) && Runs(open, steps) && AlwaysFits(open, steps) &&
            var l := After(open, steps);
            l.data == [Chunk(5000, false)] && Receive(l.receiver, 5000, false).1 == Kept(4900)
  {
    hide Runs, AlwaysFits, After;
    var end := Quiet(0, 4900, 0, None, [], -100, 100).(data := [Chunk(5000, false)]);
    RunEnds(end);
    var s9 := Goes(Quiet(5000, 4900, 0, None, [], -100, 100), Send(5000, false), end, [], end);
    var s8 := Goes(Quiet(2900, 4900, 0, None, [2100], -100, 100), Credit, Quiet(5000, 4900, 0, None, [], -100, 100), s9, end);
    var s7 := Goes(Quiet(2900, 2900, 0, Some(2100), [], 0, 0), Refund(None, 2000, false, Sent),
                   Quiet(2900, 4900, 0, None, [2100], -100, 100), s8, end);
    assert s7 == [Refund(None, 2000, false, Sent), Credit, Send(5000, false)];
    ReadOnce(Quiet(4900, 4900, 100, None, [], 0, 0), 2000, Again, s7);
    ReadOnce(Quiet(5000, 5000, 0, None, [], 0, 0), 100, Sent, SendAndRead(2000, Again) + s7);
  }

  /** One step of a run whose links are known. */
  lemma Goes(l: Link, s: Step, l': Link, rest: seq<Step>, end: Link) returns (steps: seq<Step>)
    requires Enabled(l, s) && Fits(l, s) && Do(l, s) == l'
    requires Runs(l', rest) && AlwaysFits(l', rest) && After(l', rest) == end
    ensures steps == [s] + rest
    ensures Runs(l, steps) && AlwaysFits(l, steps) && After(l, steps) == end
  {
    hide Runs, AlwaysFits, After, Do, Enabled, Fits;
    steps := RunStep(l, s, rest, end);
  }

  function Spent(gift: int): Link {
    Link(1900, 5000, State(0, 0, 5000, Normal, None), [], [], [Chunk(5000, false)], 5000, gift, 0, 1900)
  }

  /** The two promises come in, and are used. */
  lemma BothUsed() returns (steps: seq<Step>, end: Link)
    ensures steps == [Credit, Credit, Send(5000, false), Deliver(Sent), Send(100, false)]
    ensures var l := Quiet(2900, 5000, 0, None, [2000, 2000], 0, 1900);
            Runs(l, steps) && AlwaysFits(l, steps) && After(l, steps) == end
    ensures end == Spent(0).(sender := 1800, data := [Chunk(100, false)])
  {
    hide Runs, AlwaysFits, After;
    end := Spent(0).(sender := 1800, data := [Chunk(100, false)]);
    RunEnds(end);
    steps := Goes(Spent(0), Send(100, false), end, [], end);
    var full := Quiet(1900, 5000, 0, None, [], 0, 1900).(data := [Chunk(5000, false)]);
    assert full.data[1..] == [];
    steps := Goes(full, Deliver(Sent), Spent(0), steps, end);
    steps := Goes(Quiet(6900, 5000, 0, None, [], 0, 1900), Send(5000, false), full, steps, end);
    steps := Goes(Quiet(4900, 5000, 0, None, [2000], 0, 1900), Credit, Quiet(6900, 5000, 0, None, [], 0, 1900), steps, end);
    assert [2000, 2000][1..] == [2000];
    steps := Goes(Quiet(2900, 5000, 0, None, [2000, 2000], 0, 1900), Credit, Quiet(4900, 5000, 0, None, [2000], 0, 1900),
                  steps, end);
  }

  /** The same without anything queued: the adjustment for 2000 bytes read is interrupted and finished by
      the refund of 100 others, which promises 2000 and credits 100; repeated, it promises the 2000 once
      more. In the end a rightful message finds no window. */
  lemma OverrunByAnother()
    ensures var open := Quiet(5000, 5000, 0, None, [], 0, 0);
            var end := [Refund(None, 2000, false, Sent), Credit, Credit, Send(5000, false), Deliver(Sent), Send(100, false)];
            var steps := SendAndRead(2000, Again) + (SendAndRead(100, Sent) + end);
            Fresh(open) && Runs(open, steps) && AlwaysFits(open, steps) &&
            var l := After(open, steps);
            l.data == [Chunk(100, false)] && Receive(l.receiver, 100, false).1 == Dropped
  {
    hide Runs, AlwaysFits, After;
    var s8, end := BothUsed();
    assert [2000] + [2000] == [2000, 2000];
    var s7 := Goes(Quiet(2900, 3000, 0, None, [2000], -2000, 1900), Refund(None, 2000, false, Sent),
                   Quiet(2900, 5000, 0, None, [2000, 2000], 0, 1900), s8, end);
    assert s7 == [Refund(None, 2000, false, Sent), Credit, Credit, Send(5000, false), Deliver(Sent), Send(100, false)];
    assert [] + [2000] == [2000];
    assert AfterReading(Quiet(3000, 3000, 0, Some(2000), [], 0, 0), 100, Sent) == Quiet(2900, 3000, 0, None, [2000], -2000, 1900);
    ReadOnce(Quiet(3000, 3000, 0, Some(2000), [], 0, 0), 100, Sent, s7);
    ReadOnce(Quiet(5000, 5000, 0, None, [], 0, 0), 2000, Again, SendAndRead(100, Sent) + s7);
  }

  lemma RunEnds(l: Link)
    ensures Runs(l, []) && AlwaysFits(l, []) && After(l, []) == l
  {
  }

  lemma RunStep(l: Link, s: Step, rest: seq<Step>, end: Link) returns (steps: seq<Step>)
    requires Enabled(l, s) && Fits(l, s)
    requires Runs(Do(l, s), rest) && AlwaysFits(Do(l, s), rest) && After(Do(l, s), rest) == end
    ensures steps == [s] + rest
    ensures Runs(l, steps) && AlwaysFits(l, steps) && After(l, steps) == end
  {
    steps := [s] + rest;
    assert steps[1..] == rest;
  }
}
