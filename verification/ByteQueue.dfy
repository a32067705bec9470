/** The packets of the brigade seen from one reader: the bytes still to be read by it, in order, and
    the packets that are none of its business. */
module ByteQueue {
  import opened Bytes
  import opened Brigade
  import opened Flow

  const CHANNEL_DATA: byte := 94
  const CHANNEL_EXTENDED_DATA: byte := 95

  /** The reader's channel, the stream it asks for, and how it treats extended data. */
  datatype Consumer = Consumer(id: u32, stream: u32, mode: ExtMode)

  function IdOf(data: seq<byte>): u32 {
    if |data| < 5 then 0 else U32Of(data[1..5])
  }

  predicate IsData(data: seq<byte>) {
    |data| >= 9 && (data[0] == CHANNEL_DATA || (data[0] == CHANNEL_EXTENDED_DATA && |data| >= 13))
  }

  /** The three-way test of channel.c:1573-1587. */
  predicate Matches(r: Consumer, data: seq<byte>) {
    IsData(data) && IdOf(data) == r.id &&
    if r.stream != 0 then data[0] == CHANNEL_EXTENDED_DATA && U32Of(data[5..9]) == r.stream
    else data[0] == CHANNEL_DATA || r.mode == Merge
  }

  function Unread(p: Pkt): seq<byte> {
    if p.head <= |p.data| then p.data[p.head..] else []
  }

  /** What the reader has to expect from these packets. */
  function Queue(r: Consumer, ps: seq<Pkt>): seq<byte> {
    if ps == [] then [] else
    (if Matches(r, ps[0].data) then Unread(ps[0]) else []) + Queue(r, ps[1..])
  }

  function Others(r: Consumer, ps: seq<Pkt>): seq<Pkt> {
    if ps == [] then [] else
    (if Matches(r, ps[0].data) then [] else [ps[0]]) + Others(r, ps[1..])
  }

  /** What is taken for the packet's header when its size is refunded (channel.c:1633-1638): for the
      standard stream the shorter one, also if extended data is merged into it. */
  function RefundHead(stream: u32): nat {
    if stream != 0 then 13 else 9
  }

  /** The window that is refunded when the reader has read all these packets to their ends. */
  function Charge(r: Consumer, ps: seq<Pkt>): int {
    if ps == [] then 0 else
    (if Matches(r, ps[0].data) then |ps[0].data| - RefundHead(r.stream) else 0) + Charge(r, ps[1..])
  }

  lemma {:induction false} QueueConcat(r: Consumer, a: seq<Pkt>, b: seq<Pkt>)
    ensures Queue(r, a + b) == Queue(r, a) + Queue(r, b)
    ensures Others(r, a + b) == Others(r, a) + Others(r, b)
    ensures Charge(r, a + b) == Charge(r, a) + Charge(r, b)
  {
    hide Matches, Unread;
    if a == [] {
      assert a + b == b;
    } else {
      assert (a + b)[0] == a[0] && (a + b)[1..] == a[1..] + b;
      QueueConcat(r, a[1..], b);
      var mine := Matches(r, a[0].data);
      Associative(if mine then Unread(a[0]) else [], Queue(r, a[1..]), Queue(r, b));
      Associative(if mine then [] else [a[0]], Others(r, a[1..]), Others(r, b));
    }
  }

  predicate NoneMatches(r: Consumer, ps: seq<Pkt>) {
    forall i | 0 <= i < |ps| :: !Matches(r, ps[i].data)
  }

  lemma {:induction false} NothingQueued(r: Consumer, ps: seq<Pkt>)
    requires NoneMatches(r, ps)
    ensures Queue(r, ps) == [] && Others(r, ps) == ps && Charge(r, ps) == 0
  {
    if ps != [] {
      NothingQueued(r, ps[1..]);
    }
  }

  /** The second list is the first after packets were taken out and read from the front. */
  ghost predicate Thinned(v: seq<Pkt>, v': seq<Pkt>) {
    if v == [] then v' == [] else
    || (v' != [] && v'[0].data == v[0].data && v[0].head <= v'[0].head && Thinned(v[1..], v'[1..]))
    || Thinned(v[1..], v')
  }

  lemma {:induction false} ThinnedNow(v: seq<Pkt>)
    ensures Thinned(v, v)
  {
    if v != [] {
      ThinnedNow(v[1..]);
    }
  }

  lemma {:induction false} ThinnedThen(a: seq<Pkt>, b: seq<Pkt>, c: seq<Pkt>)
    requires Thinned(a, b) && Thinned(b, c)
    ensures Thinned(a, c)
    decreases |a|
  {
    if a != [] {
      if Thinned(a[1..], b) {
        ThinnedThen(a[1..], b, c);
      } else if Thinned(b[1..], c) {
        ThinnedThen(a[1..], b[1..], c);
      } else {
        ThinnedThen(a[1..], b[1..], c[1..]);
      }
    }
  }

  lemma {:induction false} ThinnedConcat(a: seq<Pkt>, a': seq<Pkt>, b: seq<Pkt>, b': seq<Pkt>)
    requires Thinned(a, a') && Thinned(b, b')
    ensures Thinned(a + b, a' + b')
    decreases |a|
  {
    if a == [] {
      assert a + b == b && a' + b' == b';
    } else {
      assert (a + b)[0] == a[0] && (a + b)[1..] == a[1..] + b;
      if Thinned(a[1..], a') {
        ThinnedConcat(a[1..], a', b, b');
      } else {
        assert (a' + b')[0] == a'[0] && (a' + b')[1..] == a'[1..] + b';
        ThinnedConcat(a[1..], a'[1..], b, b');
      }
    }
  }

  /** One packet is read in part, or taken out. */
  lemma {:induction false} ThinnedAt(v: seq<Pkt>, i: nat, n: nat)
    requires i < |v|
    ensures Thinned(v, v[i := Pkt(v[i].data, v[i].head + n)]) && Thinned(v, Without(v, i))
    decreases i
  {
    var p := Pkt(v[i].data, v[i].head + n);
    if i == 0 {
      ThinnedNow(v[1..]);
      assert v[0 := p][1..] == v[1..] && Without(v, 0) == v[1..];
    } else {
      ThinnedAt(v[1..], i - 1, n);
      assert v[i := p][1..] == v[1..][i - 1 := p];
      assert Without(v, i)[1..] == Without(v[1..], i - 1);
    }
  }

  /** The second sequence is the first with some elements left out. */
  ghost predicate Within(whole: seq<byte>, part: seq<byte>) {
    if whole == [] then part == [] else
    Within(whole[1..], part) || (part != [] && part[0] == whole[0] && Within(whole[1..], part[1..]))
  }

  lemma {:induction false} WithinNow(s: seq<byte>)
    ensures Within(s, s)
  {
    if s != [] {
      WithinNow(s[1..]);
    }
  }

  lemma {:induction false} WithinThen(a: seq<byte>, b: seq<byte>, c: seq<byte>)
    requires Within(a, b) && Within(b, c)
    ensures Within(a, c)
    decreases |a|
  {
    if a != [] {
      if Within(a[1..], b) {
        WithinThen(a[1..], b, c);
      } else if Within(b[1..], c) {
        WithinThen(a[1..], b[1..], c);
      } else {
        WithinThen(a[1..], b[1..], c[1..]);
      }
    }
  }

  lemma {:induction false} WithinConcat(a: seq<byte>, a': seq<byte>, b: seq<byte>, b': seq<byte>)
    requires Within(a, a') && Within(b, b')
    ensures Within(a + b, a' + b')
    decreases |a|
  {
    if a == [] {
      assert a + b == b && a' + b' == b';
    } else {
      assert (a + b)[0] == a[0] && (a + b)[1..] == a[1..] + b;
      if Within(a[1..], a') {
        WithinConcat(a[1..], a', b, b');
      } else {
        assert (a' + b')[0] == a'[0] && (a' + b')[1..] == a'[1..] + b';
        WithinConcat(a[1..], a'[1..], b, b');
      }
    }
  }

  lemma {:induction false} SuffixWithin(s: seq<byte>, i: nat)
    requires i <= |s|
    ensures Within(s, s[i..])
    decreases i
  {
    if i == 0 {
      WithinNow(s);
      assert s[0..] == s;
    } else {
      SuffixWithin(s[1..], i - 1);
      assert s[1..][i - 1..] == s[i..];
    }
  }

  /** For a reader, what is left then is what was there with some bytes left out. */
  lemma {:induction false} ThinnedQueue(r: Consumer, v: seq<Pkt>, v': seq<Pkt>)
    requires Thinned(v, v')
    ensures Within(Queue(r, v), Queue(r, v'))
    decreases |v|
  {
    hide Matches;
    if v == [] {
    } else {
      var mine := if Matches(r, v[0].data) then Unread(v[0]) else [];
      if Thinned(v[1..], v') {
        ThinnedQueue(r, v[1..], v');
        assert mine[|mine|..] == [];
        SuffixWithin(mine, |mine|);
        WithinConcat(mine, [], Queue(r, v[1..]), Queue(r, v'));
        assert [] + Queue(r, v') == Queue(r, v');
      } else {
        ThinnedQueue(r, v[1..], v'[1..]);
        UnreadWithin(v[0], v'[0]);
        WithinNow([]);
        WithinConcat(mine, if Matches(r, v[0].data) then Unread(v'[0]) else [], Queue(r, v[1..]), Queue(r, v'[1..]));
      }
    }
  }

  lemma UnreadWithin(p: Pkt, p': Pkt)
    requires p'.data == p.data && p.head <= p'.head
    ensures Within(Unread(p), Unread(p'))
  {
    if p'.head <= |p.data| {
      SuffixWithin(Unread(p), p'.head - p.head);
      assert Unread(p)[p'.head - p.head..] == Unread(p');
    } else {
      SuffixWithin(Unread(p), |Unread(p)|);
      assert Unread(p)[|Unread(p)|..] == [];
    }
  }

  /** Having started with the packets `v0` and the bytes `got0` handed out, and `arrived` since, the
      reader now holds `got1` and `v1` is what is left: no byte of its streams is lost, repeated or
      reordered, no other packet is touched, and `paid` is the window to be refunded for the packets
      that are gone. */
  ghost predicate Progress(r: Consumer, v0: seq<Pkt>, got0: seq<byte>, arrived: seq<Pkt>, v1: seq<Pkt>, got1: seq<byte>,
                           paid: int)
  {
    && got0 <= got1
    && got0 + Queue(r, v0 + arrived) == got1 + Queue(r, v1)
    && Others(r, v0 + arrived) == Others(r, v1)
    && Charge(r, v0 + arrived) == Charge(r, v1) + paid
    && Thinned(v0 + arrived, v1)
  }

  lemma ProgressStart(r: Consumer, v: seq<Pkt>, got: seq<byte>)
    ensures Progress(r, v, got, [], v, got, 0)
  {
    assert v + [] == v;
    ThinnedNow(v);
  }

  /** A packet is appended. */
  lemma ProgressArrive(r: Consumer, v0: seq<Pkt>, got0: seq<byte>, arrived: seq<Pkt>, v1: seq<Pkt>, got1: seq<byte>,
                       paid: int, more: seq<Pkt>)
    requires Progress(r, v0, got0, arrived, v1, got1, paid)
    ensures Progress(r, v0, got0, arrived + more, v1 + more, got1, paid)
  {
    assert v0 + (arrived + more) == v0 + arrived + more;
    ThinnedNow(more);
    ThinnedConcat(v0 + arrived, v1, more, more);
    QueueConcat(r, v0 + arrived, more);
    QueueConcat(r, v1, more);
    assert got0 + (Queue(r, v0 + arrived) + Queue(r, more)) == got0 + Queue(r, v0 + arrived) + Queue(r, more);
    assert got1 + (Queue(r, v1) + Queue(r, more)) == got1 + Queue(r, v1) + Queue(r, more);
  }

  /** The queue around its first matching packet. */
  lemma QueueAt(r: Consumer, v: seq<Pkt>, i: nat)
    requires i < |v| && NoneMatches(r, v[..i]) && Matches(r, v[i].data)
    ensures Queue(r, v) == Unread(v[i]) + Queue(r, v[i + 1..])
    ensures Others(r, v) == v[..i] + Others(r, v[i + 1..])
    ensures Charge(r, v) == |v[i].data| - RefundHead(r.stream) + Charge(r, v[i + 1..])
  {
    hide Queue, Others, Charge, Matches, Unread;
    NothingQueued(r, v[..i]);
    assert v == v[..i] + ([v[i]] + v[i + 1..]);
    QueueConcat(r, v[..i], [v[i]] + v[i + 1..]);
    QueueConcat(r, [v[i]], v[i + 1..]);
    QueueOne(r, v[i]);
  }

  lemma QueueOne(r: Consumer, p: Pkt)
    requires Matches(r, p.data)
    ensures Queue(r, [p]) == Unread(p) && Others(r, [p]) == [] && Charge(r, [p]) == |p.data| - RefundHead(r.stream)
  {
    assert [p][1..] == [];
  }

  /** The first `n` unread bytes of the first matching packet are handed out. */
  lemma ProgressPart(r: Consumer, v0: seq<Pkt>, got0: seq<byte>, arrived: seq<Pkt>, v1: seq<Pkt>, got1: seq<byte>,
                     paid: int, i: nat, n: nat)
    requires Progress(r, v0, got0, arrived, v1, got1, paid)
    requires i < |v1| && NoneMatches(r, v1[..i]) && Matches(r, v1[i].data) && v1[i].head + n <= |v1[i].data|
    ensures var p := v1[i];
            var v2 := v1[i := Pkt(p.data, p.head + n)];
            Progress(r, v0, got0, arrived, v2, got1 + p.data[p.head..p.head + n], paid)
  {
    hide Matches, Queue, Others, Charge, Thinned;
    var p := v1[i];
    var p' := Pkt(p.data, p.head + n);
    var v2 := v1[i := p'];
    ThinnedAt(v1, i, n);
    ThinnedThen(v0 + arrived, v1, v2);
    QueueAt(r, v1, i);
    assert v2[..i] == v1[..i] && v2[i + 1..] == v1[i + 1..];
    QueueAt(r, v2, i);
    var part, rest := p.data[p.head..p.head + n], Queue(r, v1[i + 1..]);
    assert Unread(p) == part + Unread(p');
    assert got1 + (part + Unread(p') + rest) == got1 + part + (Unread(p') + rest);
  }

  /** A packet read to its end is unlinked. */
  lemma ProgressUnlink(r: Consumer, v0: seq<Pkt>, got0: seq<byte>, arrived: seq<Pkt>, v1: seq<Pkt>, got1: seq<byte>,
                       paid: int, i: nat)
    requires Progress(r, v0, got0, arrived, v1, got1, paid)
    requires i < |v1| && NoneMatches(r, v1[..i]) && Matches(r, v1[i].data) && Unread(v1[i]) == []
    ensures Progress(r, v0, got0, arrived, Without(v1, i), got1, paid + |v1[i].data| - RefundHead(r.stream))
  {
    ThinnedAt(v1, i, 0);
    ThinnedThen(v0 + arrived, v1, Without(v1, i));
    QueueAt(r, v1, i);
    NothingQueued(r, v1[..i]);
    QueueConcat(r, v1[..i], v1[i + 1..]);
  }

  /** Between the two moments packets were only added, and none but the reader's taken out. */
  ghost predicate ReadBy(r: Consumer, before: Roll, after: Roll) {
    Since(before, after) && forall n <- before.nodes :: n in after.nodes || Matches(r, n.data)
  }

  lemma ReadByThen(r: Consumer, a: Roll, b: Roll, c: Roll)
    requires ReadBy(r, a, b) && ReadBy(r, b, c)
    ensures ReadBy(r, a, c)
  {
    hide Matches;
  }

  lemma OnlyAdded(r: Consumer, a: Roll, b: Roll)
    requires Since(a, b) && a.nodes <= b.nodes
    ensures ReadBy(r, a, b)
  {
    hide Matches;
  }

  lemma TakenOff(r: Consumer, a: Roll, i: nat)
    requires i < |a.nodes| && Matches(r, a.nodes[i].data)
    ensures ReadBy(r, a, Roll(Without(a.nodes, i), a.clock))
  {
    hide Matches;
    forall n <- a.nodes
      ensures n in Without(a.nodes, i) || Matches(r, n.data)
    {
      var k :| 0 <= k < |a.nodes| && a.nodes[k] == n;
      assert k != i ==> Without(a.nodes, i)[if k < i then k else k - 1] == n;
    }
  }

  /** The place of an interrupted read: the packet it goes on with is still linked, and before that
      there is nothing for the reader. Or the list had come to its end. */
  ghost predicate Held(r: Consumer, next: Node?, nodes: seq<Node>) {
    next == null || (next in nodes && forall n <- nodes :: n.stamp < next.stamp ==> !Matches(r, n.data))
  }

  /** Whatever else is added or taken out, the place is kept just as long as that packet is not taken
      out. */
  lemma PlaceKeptIff(r: Consumer, next: Node?, a: Roll, b: Roll)
    requires Aging(a) && Held(r, next, a.nodes) && Since(a, b)
    ensures Held(r, next, b.nodes) <==> next == null || next in b.nodes
  {
    hide Matches;
  }

  /** So a reader whose packet it is not leaves the place alone. */
  lemma PlaceKept(r: Consumer, next: Node?, q: Consumer, a: Roll, b: Roll)
    requires Aging(a) && Held(r, next, a.nodes) && ReadBy(q, a, b)
    requires next != null ==> !Matches(q, next.data)
    ensures Held(r, next, b.nodes)
  {
    PlaceKeptIff(r, next, a, b);
  }
}
