/** The packet brigade: a doubly linked list of received packets shared by all channels. */
module Brigade {
  import opened Bytes

  datatype Option<T> = None | Some(value: T)

  /** A packet as a value: its bytes and where unread data starts. */
  datatype Pkt = Pkt(data: seq<byte>, head: nat)

  /** `LIBSSH2_PACKET`. */
  class Node {
    const data: seq<byte>
    /** When the packet was received: later packets have higher stamps. */
    ghost const stamp: nat
    var dataHead: nat
    var next: Node?
    var prev: Node?

    constructor (data: seq<byte>, dataHead: nat, ghost stamp: nat)
      ensures this.data == data && this.dataHead == dataHead && next == null && prev == null && this.stamp == stamp
    {
      this.data, this.dataHead, this.stamp := data, dataHead, stamp;
      next, prev := null, null;
    }
  }

  ghost predicate Distinct<T>(s: seq<T>) {
    forall i, j | 0 <= i < j < |s| :: s[i] != s[j]
  }

  function Without<T>(s: seq<T>, i: nat): seq<T>
    requires i < |s|
  {
    s[..i] + s[i + 1..]
  }

  /** Every packet has a type byte and a 32-bit length, and its unread part lies within it. */
  predicate Sane(v: seq<Pkt>) {
    forall i | 0 <= i < |v| :: 0 < |v[i].data| < TWO32 && v[i].head <= |v[i].data|
  }

  /** The packets of a brigade in their order, and the stamp the next one will get. */
  datatype Roll = Roll(nodes: seq<Node>, clock: nat)

  ghost predicate Aging(roll: Roll) {
    && (forall i, j | 0 <= i < j < |roll.nodes| :: roll.nodes[i].stamp < roll.nodes[j].stamp)
    && (forall n <- roll.nodes :: n.stamp < roll.clock)
  }

  /** Between the two moments packets were only added, at the end, and taken out. */
  ghost predicate Since(before: Roll, after: Roll) {
    before.clock <= after.clock && forall n <- after.nodes :: n in before.nodes || before.clock <= n.stamp
  }

  lemma WithoutAt<T>(s: seq<T>, at: nat)
    requires at < |s|
    ensures |Without(s, at)| == |s| - 1 && (at + 1 < |s| ==> Without(s, at)[at] == s[at + 1])
    ensures forall x <- Without(s, at) :: x in s
  {
  }

  lemma SinceNow(a: Roll)
    ensures Since(a, a)
  {
  }

  ghost function Nth(nodes: seq<Node>, i: int): Node? {
    if 0 <= i < |nodes| then nodes[i] else null
  }

  ghost predicate NextOk(nodes: seq<Node>)
    reads nodes`next
  {
    forall i {:trigger nodes[i].next} | 0 <= i < |nodes| :: nodes[i].next == Nth(nodes, i + 1)
  }

  ghost predicate PrevOk(nodes: seq<Node>)
    reads nodes`prev
  {
    forall i {:trigger nodes[i].prev} | 0 <= i < |nodes| :: nodes[i].prev == Nth(nodes, i - 1)
  }

  ghost predicate ViewOk(nodes: seq<Node>, view: seq<Pkt>)
    reads nodes`dataHead
  {
    |view| == |nodes| &&
    forall i {:trigger nodes[i].dataHead} {:trigger view[i]} | 0 <= i < |nodes| ::
      view[i] == Pkt(nodes[i].data, nodes[i].dataHead)
  }

  /** The links lead past the node in both directions. */
  ghost predicate Skipped(nodes: seq<Node>, i: nat)
    requires i < |nodes|
    reads nodes`next, nodes`prev
  {
    && (forall j {:trigger nodes[j].next} | 0 <= j < |nodes| :: nodes[j].next == Nth(nodes, if j == i - 1 then i + 1 else j + 1))
    && (forall j {:trigger nodes[j].prev} | 0 <= j < |nodes| :: nodes[j].prev == Nth(nodes, if j == i + 1 then i - 1 else j - 1))
  }

  /** `LIBSSH2_PACKET_BRIGADE`. */
  class List {
    var head: Node?
    var tail: Node?
    ghost var nodes: seq<Node>
    /** The list as a value. */
    ghost var view: seq<Pkt>
    ghost var clock: nat

    constructor ()
      ensures Valid() && nodes == [] && view == []
    {
      head, tail, nodes, view, clock := null, null, [], [], 0;
    }

    /** Following `next` from the head and `prev` from the tail gives `nodes`, each node once; their
        contents are `view`. */
    ghost predicate Valid()
      reads this, nodes
    {
      && Distinct(nodes)
      && head == Nth(nodes, 0) && tail == Nth(nodes, |nodes| - 1) && NextOk(nodes) && PrevOk(nodes)
      && |view| == |nodes| && Sane(view) && ViewOk(nodes, view) && Aging(Rolled())
    }

    ghost function Rolled(): Roll
      reads this`nodes, this`clock
    {
      Roll(nodes, clock)
    }

    ghost function Objects(): set<Node>
      reads this`nodes
    {
      set n | n in nodes
    }

    ghost function At(i: int): Node?
      reads this`nodes
    {
      Nth(nodes, i)
    }

    lemma Ends()
      requires Valid()
      ensures |view| == |nodes| && head == At(0) && tail == At(|nodes| - 1)
      ensures forall i, j | 0 <= i < j < |nodes| :: nodes[i] != nodes[j]
    {
    }

    lemma Entry(i: nat)
      requires Valid() && i < |nodes|
      ensures |view| == |nodes| && view[i] == Pkt(nodes[i].data, nodes[i].dataHead)
      ensures 0 < |view[i].data| < TWO32 && view[i].head <= |view[i].data| && nodes[i].next == At(i + 1)
    {
    }

    /** Lines 895-905 of packet.c, up to the links. */
    method Attach(n: Node)
      requires Valid() && n !in nodes
      modifies this`head, this`tail, n`next, n`prev, nodes`next
      ensures head == (if nodes == [] then n else old(head)) && tail == n && n.next == null && n.prev == old(tail)
      ensures forall j {:trigger nodes[j].next} | 0 <= j < |nodes| :: nodes[j].next == if j == |nodes| - 1 then n else Nth(nodes, j + 1)
    {
      hide Sane, Aging, ViewOk;
      n.next := null;
      if tail != null {
        n.prev := tail;
        n.prev.next := n;
        tail := n;
      } else {
        head := n;
        tail := n;
        n.prev := null;
      }
    }

    /** Lines 895-905 of packet.c. */
    method Append(n: Node)
      requires Valid() && clock == n.stamp && 0 < |n.data| < TWO32 && n.dataHead <= |n.data|
      modifies this, n`next, n`prev, nodes`next
      ensures Valid() && nodes == old(nodes) + [n] && view == old(view) + [Pkt(n.data, n.dataHead)]
      ensures Since(old(Rolled()), Rolled())
    {
      hide Sane, Aging, Since, NextOk, PrevOk, ViewOk, Distinct;
      AgingMore(Rolled(), n);
      SaneMore(view, Pkt(n.data, n.dataHead));
      Attach(n);
      LinksMore(nodes, view, n);
      nodes, view, clock := nodes + [n], view + [Pkt(n.data, n.dataHead)], clock + 1;
    }

    /** The unlinking written out in packet.c:1000-1010 and channel.c:1612-1623. */
    method Detach(n: Node, ghost i: nat)
      requires Valid() && i < |nodes| && nodes[i] == n
      modifies this`head, this`tail, nodes`next, nodes`prev
      ensures head == Nth(nodes, if i == 0 then 1 else 0)
      ensures tail == Nth(nodes, |nodes| - if i == |nodes| - 1 then 2 else 1)
      ensures Skipped(nodes, i)
      ensures n.next == old(n.next)
    {
      hide Sane, Aging, ViewOk, Without, Distinct;
      DistinctAt(nodes, i);
      ghost var left, right := Nth(nodes, i - 1), Nth(nodes, i + 1);
      if n.prev != null {
        n.prev.next := n.next;
      } else {
        head := n.next;
      }
      if n.next != null {
        n.next.prev := n.prev;
      } else {
        tail := n.prev;
      }
    }

    /** The packet is out of the list. */
    method Unlink(n: Node, ghost i: nat)
      requires Valid() && i < |nodes| && nodes[i] == n
      modifies this, nodes`next, nodes`prev
      ensures Valid() && nodes == Without(old(nodes), i) && view == Without(old(view), i)
      ensures n.next == old(n.next) && clock == old(clock)
    {
      hide Sane, Aging, Skipped, NextOk, PrevOk, ViewOk, Distinct, Nth, Without;
      DistinctWithout(nodes, i);
      AgingWithout(Rolled(), i);
      SaneWithout(view, i);
      Detach(n, i);
      EndsWithout(nodes, i);
      LinksWithout(nodes, view, i);
      nodes, view := Without(nodes, i), Without(view, i);
    }

    /** The unread part of a packet shrinks from the front. */
    method Advance(n: Node, ghost i: nat, count: nat)
      requires Valid() && i < |nodes| && nodes[i] == n && n.dataHead + count <= |n.data|
      modifies this`view, n`dataHead
      ensures Valid() && view == old(view)[i := Pkt(n.data, old(n.dataHead) + count)]
    {
      n.dataHead := n.dataHead + count;
      view := view[i := Pkt(n.data, n.dataHead)];
    }

    /** `libssh2_packet_ask_ex` without polling the socket: the first match, if there is one, is
        taken out and nothing else moves. */
    method Ask(q: Query) returns (r: Option<seq<byte>>, ghost at: nat)
      requires Valid() && (q.pattern.Some? ==> q.matchLen <= |q.pattern.value|)
      modifies this, nodes`next, nodes`prev
      ensures Valid() && at <= |old(nodes)|
      ensures forall j | 0 <= j < at :: !q.Accepts(old(nodes)[j].data)
      ensures r == None ==> at == |nodes| && nodes == old(nodes) && view == old(view)
      ensures r.Some? ==> at < |old(nodes)| && r.value == old(nodes)[at].data && q.Accepts(r.value)
      ensures r.Some? ==> nodes == Without(old(nodes), at) && view == Without(old(view), at)
    {
      var packet := head;
      at := 0;
      while packet != null
        invariant at <= |nodes| && packet == At(at)
        invariant forall j | 0 <= j < at :: !q.Accepts(nodes[j].data)
        decreases |nodes| - at
      {
        if q.Accepts(packet.data) {
          r := Some(packet.data);
          Unlink(packet, at);
          return;
        }
        packet := packet.next;
        at := at + 1;
      }
      r := None;
    }

    /** `libssh2_packet_askv_ex`: the first of the types that finds a match decides. */
    method AskAny(types: seq<byte>, matchOfs: nat, pattern: Option<seq<byte>>, matchLen: nat)
      returns (r: Option<seq<byte>>, ghost k: nat, ghost at: nat)
      requires Valid()
      requires pattern.Some? ==> matchLen <= |pattern.value|
      modifies this, nodes`next, nodes`prev
      ensures Valid() && k <= |types| && at <= |old(nodes)|
      ensures forall t, j | 0 <= t < k && 0 <= j < |old(nodes)| ::
                !Query(types[t], matchOfs, pattern, matchLen).Accepts(old(nodes)[j].data)
      ensures r == None ==> k == |types| && nodes == old(nodes) && view == old(view)
      ensures r.Some? ==> k < |types| && at < |old(nodes)| && r.value == old(nodes)[at].data &&
                          Query(types[k], matchOfs, pattern, matchLen).Accepts(r.value) &&
                          nodes == Without(old(nodes), at) && view == Without(old(view), at) &&
                          forall j | 0 <= j < at :: !Query(types[k], matchOfs, pattern, matchLen).Accepts(old(nodes)[j].data)
    {
      hide List.Valid, Without;
      k, at := 0, 0;
      var i := 0;
      while i < |types|
        invariant k == i <= |types| && nodes == old(nodes) && view == old(view) && Valid() && at <= |nodes|
        invariant forall t, j | 0 <= t < k && 0 <= j < |nodes| ::
                    !Query(types[t], matchOfs, pattern, matchLen).Accepts(nodes[j].data)
      {
        r, at := Ask(Query(types[i], matchOfs, pattern, matchLen));
        if r.Some? {
          return;
        }
        i := i + 1;
        k := i;
      }
      r := None;
    }
  }

  /** What a packet is searched by: its type and, unless the pattern is NULL, bytes at an offset. */
  datatype Query = Query(packetType: byte, matchOfs: nat, pattern: Option<seq<byte>>, matchLen: nat) {
    predicate Accepts(data: seq<byte>)
      requires pattern.Some? ==> matchLen <= |pattern.value|
    {
      && data != [] && data[0] == packetType && |data| >= matchOfs + matchLen
      && (pattern.Some? ==> data[matchOfs..matchOfs + matchLen] == pattern.value[..matchLen])
    }
  }

  /** As it is used for the messages of a channel: by type and by the channel number behind it. And by type
      only. */
  lemma AskedFor(t: byte, id: u32, data: seq<byte>)
    ensures Query(t, 1, Some(U32Bytes(id)), 4).Accepts(data) <==> |data| >= 5 && data[0] == t && U32Of(data[1..5]) == id
    ensures Query(t, 0, None, 0).Accepts(data) <==> data != [] && data[0] == t
  {
    hide U32Of, U32Bytes;
    if |data| >= 5 {
      U32Injective(data[1..5]);
      U32RoundTrip(id, []);
      assert U32Bytes(id) + [] == U32Bytes(id) == U32Bytes(id)[..4];
    }
  }

  lemma DistinctAt<T>(s: seq<T>, i: nat)
    requires Distinct(s) && i < |s|
    ensures forall j | 0 <= j < |s| && j != i :: s[j] != s[i]
    ensures i > 0 ==> forall j | 0 <= j < |s| && j != i - 1 :: s[j] != s[i - 1]
    ensures i + 1 < |s| ==> forall j | 0 <= j < |s| && j != i + 1 :: s[j] != s[i + 1]
  {
  }

  lemma DistinctWithout<T>(s: seq<T>, i: nat)
    requires Distinct(s) && i < |s|
    ensures Distinct(Without(s, i))
  {
  }

  lemma LinksMore(nodes: seq<Node>, view: seq<Pkt>, n: Node)
    requires n.next == null && n.prev == Nth(nodes, |nodes| - 1) && PrevOk(nodes) && ViewOk(nodes, view)
    requires forall j {:trigger nodes[j].next} | 0 <= j < |nodes| :: nodes[j].next == if j == |nodes| - 1 then n else Nth(nodes, j + 1)
    ensures NextOk(nodes + [n]) && PrevOk(nodes + [n]) && ViewOk(nodes + [n], view + [Pkt(n.data, n.dataHead)])
  {
  }

  lemma LinksWithout(nodes: seq<Node>, view: seq<Pkt>, i: nat)
    requires i < |nodes| == |view| && ViewOk(nodes, view) && Skipped(nodes, i)
    ensures NextOk(Without(nodes, i)) && PrevOk(Without(nodes, i)) && ViewOk(Without(nodes, i), Without(view, i))
    ensures |Without(nodes, i)| == |Without(view, i)|
  {
    hide ViewOk;
    ViewWithout(nodes, view, i);
    var rest := Without(nodes, i);
    forall j | 0 <= j < |rest|
      ensures rest[j].next == Nth(rest, j + 1) && rest[j].prev == Nth(rest, j - 1)
    {
      SkippedAt(nodes, i, if j < i then j else j + 1);
    }
  }

  lemma SkippedAt(nodes: seq<Node>, i: nat, k: nat)
    requires i < |nodes| && k < |nodes| && k != i && Skipped(nodes, i)
    ensures var rest := Without(nodes, i);
            var j := if k < i then k else k - 1;
            rest[j] == nodes[k] && nodes[k].next == Nth(rest, j + 1) && nodes[k].prev == Nth(rest, j - 1)
  {
    assert nodes[k].next == Nth(nodes, if k == i - 1 then i + 1 else k + 1);
    assert nodes[k].prev == Nth(nodes, if k == i + 1 then i - 1 else k - 1);
  }

  lemma ViewWithout(nodes: seq<Node>, view: seq<Pkt>, i: nat)
    requires i < |nodes| && ViewOk(nodes, view)
    ensures ViewOk(Without(nodes, i), Without(view, i))
  {
  }

  lemma EndsWithout(nodes: seq<Node>, i: nat)
    requires i < |nodes|
    ensures var rest := Without(nodes, i);
            && Nth(rest, 0) == Nth(nodes, if i == 0 then 1 else 0)
            && Nth(rest, |rest| - 1) == Nth(nodes, |nodes| - if i == |nodes| - 1 then 2 else 1)
  {
  }

  lemma AgingWithout(roll: Roll, i: nat)
    requires Aging(roll) && i < |roll.nodes|
    ensures Aging(Roll(Without(roll.nodes, i), roll.clock))
  {
  }

  lemma AgingMore(roll: Roll, n: Node)
    requires Aging(roll) && n.stamp == roll.clock
    ensures var more := Roll(roll.nodes + [n], roll.clock + 1); Aging(more) && Since(roll, more)
    ensures n !in roll.nodes && (Distinct(roll.nodes) ==> Distinct(roll.nodes + [n]))
  {
  }

  lemma SaneMore(v: seq<Pkt>, p: Pkt)
    requires Sane(v) && 0 < |p.data| < TWO32 && p.head <= |p.data|
    ensures Sane(v + [p])
  {
  }

  lemma SaneWithout(v: seq<Pkt>, i: nat)
    requires Sane(v) && i < |v|
    ensures Sane(Without(v, i))
  {
  }
}
