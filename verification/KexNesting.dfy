/** The flags that keep reading packets and exchanging keys, which call each other, from nesting:
    packet_read -> packet_add -> kex_exchange -> packet_require -> packet_read. */
module KexNesting {
  import opened Bytes
  import opened Brigade
  import opened Flow
  import opened Scripts

  const SSH_MSG_KEXINIT: byte := 20

  datatype Incoming = Packet(t: byte) | NoData | Broken

  /** `key_exchange_state_t.state`. */
  datatype KeyState = Idle | Created | Sent | Sent1 | Sent2

  /** What `exchange_keys` of a method does, one after the other: a message is written, or a packet of a
      type is waited for. */
  datatype Op = Write | Require(t: byte)

  /** What `libssh2_kex_agree_methods` answers; refusing, it may have set both methods or not. */
  datatype Answer = Agrees | Refuses(bothSet: bool)

  function NextAnswer(agreements: seq<Answer>): Answer {
    if agreements == [] then Agrees else agreements[0]
  }

  /** What is still to come from the world outside. */
  datatype Outside = ToCome(incoming: seq<Incoming>, sends: seq<WriteOutcome>)

  /** The types of the packets in the brigade besides. */
  datatype Stand = Stand(brigade: seq<byte>, outside: Outside)

  ghost predicate Went(a: Outside, b: Outside) {
    Leaves(a.incoming, b.incoming) && Leaves(a.sends, b.sends)
  }

  predicate IsAgain(w: WriteOutcome) {
    w == Again
  }

  predicate IsNothing(i: Incoming) {
    i == NoData || i == Packet(0)
  }

  /** The last write was interrupted, or the last look at the socket found nothing. */
  ghost predicate Waits(a: Outside, b: Outside) {
    b.sends == [] || b.incoming == [] || Ends(a.sends, b.sends, IsAgain) || Ends(a.incoming, b.incoming, IsNothing)
  }

  lemma WentThen(a: Outside, b: Outside, c: Outside)
    requires Went(a, b) && Went(b, c)
    ensures Went(a, c) && (Waits(b, c) ==> Waits(a, c))
  {
    LeavesOn(a.incoming, b.incoming, c.incoming);
    LeavesOn(a.sends, b.sends, c.sends);
  }

  lemma WentOne(a: Outside, b: Outside)
    requires (b.incoming == a.incoming || b.incoming == Later(a.incoming))
    requires (b.sends == a.sends || b.sends == Later(a.sends))
    ensures Went(a, b)
    ensures b.sends == Later(a.sends) && NextSend(a.sends) == Again ==> Waits(a, b)
    ensures b.incoming == Later(a.incoming) && (a.incoming == [] || IsNothing(a.incoming[0])) ==> Waits(a, b)
  {
  }

  /** The types of the packets among these. */
  function Types(used: seq<Incoming>): seq<byte> {
    if used == [] then [] else
    (if used[0].Packet? then [used[0].t] else []) + Types(used[1..])
  }

  lemma {:induction false} TypesConcat(a: seq<Incoming>, b: seq<Incoming>)
    ensures Types(a + b) == Types(a) + Types(b)
  {
    if a == [] {
      assert a + b == b;
    } else {
      assert (a + b)[0] == a[0] && (a + b)[1..] == a[1..] + b;
      TypesConcat(a[1..], b);
    }
  }

  /** The brigade without the first packet of this type. */
  function Less(b: seq<byte>, t: byte): seq<byte> {
    if b == [] then [] else if b[0] == t then b[1..] else [b[0]] + Less(b[1..], t)
  }

  lemma {:induction false} LessAt(b: seq<byte>, i: nat, t: byte)
    requires i < |b| && b[i] == t && t !in b[..i]
    ensures Less(b, t) == Without(b, i)
    decreases i
  {
    if i > 0 {
      assert b[0] == b[..i][0];
      assert b[1..][..i - 1] == b[..i][1..];
      LessAt(b[1..], i - 1, t);
    }
  }

  lemma {:induction false} LessAppend(b: seq<byte>, x: seq<byte>, t: byte)
    requires t in b
    ensures Less(b + x, t) == Less(b, t) + x
  {
    assert (b + x)[0] == b[0] && (b + x)[1..] == b[1..] + x;
    if b[0] != t {
      LessAppend(b[1..], x, t);
    }
  }

  /** What the steps take out of the brigade, if it is all there. */
  ghost predicate Holds(b: seq<byte>, ops: seq<Op>) {
    ops == [] ||
    var n := |ops| - 1;
    Holds(b, ops[..n]) && (ops[n].Require? ==> ops[n].t in Minus(b, ops[..n]))
  }

  ghost function Minus(b: seq<byte>, ops: seq<Op>): seq<byte> {
    if ops == [] then b else
    var n := |ops| - 1;
    if ops[n].Require? then Less(Minus(b, ops[..n]), ops[n].t) else Minus(b, ops[..n])
  }

  lemma {:induction false} MinusAppend(b: seq<byte>, x: seq<byte>, ops: seq<Op>)
    requires Holds(b, ops)
    ensures Holds(b + x, ops) && Minus(b + x, ops) == Minus(b, ops) + x
  {
    if ops != [] {
      var n := |ops| - 1;
      MinusAppend(b, x, ops[..n]);
      if ops[n].Require? {
        LessAppend(Minus(b, ops[..n]), x, ops[n].t);
      }
    }
  }

  lemma {:induction false} MinusConcat(b: seq<byte>, p: seq<Op>, q: seq<Op>)
    requires Holds(b, p) && Holds(Minus(b, p), q)
    ensures Holds(b, p + q) && Minus(b, p + q) == Minus(Minus(b, p), q)
    decreases |q|
  {
    if q == [] {
      assert p + q == p;
    } else {
      var n := |q| - 1;
      MinusConcat(b, p, q[..n]);
      assert (p + q)[..|p + q| - 1] == p + q[..n];
    }
  }

  function Writes(ops: seq<Op>): nat {
    if ops == [] then 0 else (if ops[0] == Write then 1 else 0) + Writes(ops[1..])
  }

  lemma {:induction false} WritesConcat(p: seq<Op>, q: seq<Op>)
    ensures Writes(p + q) == Writes(p) + Writes(q)
  {
    if p == [] {
      assert p + q == q;
    } else {
      assert (p + q)[0] == p[0] && (p + q)[1..] == p[1..] + q;
      WritesConcat(p[1..], q);
    }
  }

  function SentIn(used: seq<WriteOutcome>): nat {
    if used == [] then 0 else (if used[0] == WriteOutcome.Sent then 1 else 0) + SentIn(used[1..])
  }

  lemma {:induction false} SentInConcat(a: seq<WriteOutcome>, b: seq<WriteOutcome>)
    ensures SentIn(a + b) == SentIn(a) + SentIn(b)
  {
    if a == [] {
      assert a + b == b;
    } else {
      assert (a + b)[0] == a[0] && (a + b)[1..] == a[1..] + b;
      SentInConcat(a[1..], b);
    }
  }

  /** The steps have been carried out between the two moments: as many messages went out as they write, and
      of the packets there and those that came just the ones they wait for have been taken. */
  ghost predicate Carried(ops: seq<Op>, a: Stand, b: Stand) {
    && Went(a.outside, b.outside) && SentIn(Used(a.outside.sends, b.outside.sends)) == Writes(ops)
    && var pool := a.brigade + Types(Used(a.outside.incoming, b.outside.incoming));
       Holds(pool, ops) && b.brigade == Minus(pool, ops)
  }

  lemma {:induction false} WritesCount(ops: seq<Op>)
    ensures Writes(ops) == multiset(ops)[Write]
  {
    if ops != [] {
      assert ops == [ops[0]] + ops[1..];
      WritesCount(ops[1..]);
    }
  }

  lemma {:induction false} SentCount(used: seq<WriteOutcome>)
    ensures SentIn(used) == multiset(used)[WriteOutcome.Sent]
  {
    if used != [] {
      assert used == [used[0]] + used[1..];
      SentCount(used[1..]);
    }
  }

  lemma {:induction false} TypesCount(used: seq<Incoming>, t: byte)
    ensures multiset(Types(used))[t] == multiset(used)[Packet(t)]
  {
    if used != [] {
      assert used == [used[0]] + used[1..];
      TypesCount(used[1..], t);
    }
  }

  lemma {:induction false} LessCount(b: seq<byte>, t: byte, x: byte)
    requires t in b
    ensures multiset(b)[x] == multiset(Less(b, t))[x] + if x == t then 1 else 0
  {
    assert b == [b[0]] + b[1..];
    if b[0] != t {
      LessCount(b[1..], t, x);
    }
  }

  lemma {:induction false} MinusCount(b: seq<byte>, ops: seq<Op>, t: byte)
    requires Holds(b, ops)
    ensures multiset(b)[t] == multiset(Minus(b, ops))[t] + multiset(ops)[Require(t)]
  {
    if ops != [] {
      var n := |ops| - 1;
      assert ops == ops[..n] + [ops[n]];
      MinusCount(b, ops[..n], t);
      if ops[n].Require? {
        LessCount(Minus(b, ops[..n]), ops[n].t, t);
      }
    }
  }

  /** In numbers: for every step that writes a message one went out, and of the packets of any type, those
      there before and those that came, as many are left as no step has waited for. */
  lemma CarriedCounts(ops: seq<Op>, a: Stand, b: Stand, t: byte)
    requires Carried(ops, a, b)
    ensures |b.outside.sends| <= |a.outside.sends| && |b.outside.incoming| <= |a.outside.incoming|
    ensures var gone := a.outside.sends[..|a.outside.sends| - |b.outside.sends|];
            multiset(gone)[WriteOutcome.Sent] == multiset(ops)[Write]
    ensures var came := a.outside.incoming[..|a.outside.incoming| - |b.outside.incoming|];
            multiset(b.brigade)[t] + multiset(ops)[Require(t)] == multiset(a.brigade)[t] + multiset(came)[Packet(t)]
  {
    hide Holds, Minus, Writes, SentIn, Types;
    var came := Used(a.outside.incoming, b.outside.incoming);
    SentCount(Used(a.outside.sends, b.outside.sends));
    WritesCount(ops);
    TypesCount(came, t);
    MinusCount(a.brigade + Types(came), ops, t);
  }

  lemma CarriedThen(p: seq<Op>, q: seq<Op>, a: Stand, b: Stand, c: Stand)
    requires Carried(p, a, b) && Carried(q, b, c)
    ensures Carried(p + q, a, c)
  {
    hide Holds, Minus, Writes, SentIn, Types;
    var u, v, w := a.outside, b.outside, c.outside;
    LeavesOn(u.incoming, v.incoming, w.incoming);
    LeavesOn(u.sends, v.sends, w.sends);
    SentInConcat(Used(u.sends, v.sends), Used(v.sends, w.sends));
    WritesConcat(p, q);
    var x, y := Types(Used(u.incoming, v.incoming)), Types(Used(v.incoming, w.incoming));
    TypesConcat(Used(u.incoming, v.incoming), Used(v.incoming, w.incoming));
    Associative(a.brigade, x, y);
    MinusAppend(a.brigade + x, y, p);
    MinusConcat(a.brigade + x + y, p, q);
  }

  lemma NothingCarried(a: Stand)
    ensures Carried([], a, a)
  {
    assert a.brigade + [] == a.brigade;
  }

  /** A packet of the type has been waited for, and taken if it is there. */
  ghost predicate Awaited(done: bool, t: byte, a: Stand, b: Stand) {
    && Leaves(a.outside.incoming, b.outside.incoming) && b.outside.sends == a.outside.sends
    && var pool := a.brigade + Types(Used(a.outside.incoming, b.outside.incoming));
       if done then t in pool && b.brigade == Less(pool, t) else b.brigade == pool
  }

  /** At most one packet has come in. */
  ghost predicate Taken(a: Stand, b: Stand) {
    var next := a.outside.incoming;
    && b.outside.sends == a.outside.sends
    && (|| b == a
        || (b.outside.incoming == Later(next) &&
            b.brigade == a.brigade + if next != [] && next[0].Packet? then [next[0].t] else []))
  }

  lemma TakenAwaits(t: byte, a: Stand, b: Stand)
    requires Taken(a, b)
    ensures Awaited(false, t, a, b)
  {
    var u, v := a.outside.incoming, b.outside.incoming;
    if b == a {
      assert a.brigade + [] == a.brigade;
    } else if u != [] {
      assert Used(u, v) == [u[0]];
      assert a.brigade + [] == a.brigade;
    }
  }

  lemma AwaitedThen(done: bool, t: byte, a: Stand, b: Stand, c: Stand)
    requires Awaited(false, t, a, b) && Awaited(done, t, b, c)
    ensures Awaited(done, t, a, c)
  {
    var u, v, w := a.outside.incoming, b.outside.incoming, c.outside.incoming;
    LeavesOn(u, v, w);
    TypesConcat(Used(u, v), Used(v, w));
    Associative(a.brigade, Types(Used(u, v)), Types(Used(v, w)));
  }

  lemma AwaitedCarries(done: bool, t: byte, a: Stand, b: Stand)
    requires Awaited(done, t, a, b)
    ensures Carried(if done then [Require(t)] else [], a, b) && AllSent(a.outside.sends, b.outside.sends)
  {
    OneAwaited(a.brigade + Types(Used(a.outside.incoming, b.outside.incoming)), t);
    assert Used(a.outside.sends, b.outside.sends) == [];
    hide Types, Holds, Minus, Writes;
  }

  lemma OneAwaited(pool: seq<byte>, t: byte)
    ensures Writes([]) == 0 && Holds(pool, []) && Minus(pool, []) == pool
    ensures Writes([Require(t)]) == 0 && Minus(pool, [Require(t)]) == Less(pool, t)
    ensures t in pool ==> Holds(pool, [Require(t)])
  {
    assert [Require(t)][..0] == [] && [Require(t)][1..] == [];
  }

  /** No write was interrupted or failed. */
  ghost predicate AllSent(before: seq<WriteOutcome>, after: seq<WriteOutcome>) {
    Leaves(before, after) && forall w <- Used(before, after) :: w == WriteOutcome.Sent
  }

  lemma AllSentThen(a: seq<WriteOutcome>, b: seq<WriteOutcome>, c: seq<WriteOutcome>)
    requires AllSent(a, b) && AllSent(b, c)
    ensures AllSent(a, c)
  {
    LeavesOn(a, b, c);
  }

  /** A message is written, or could not be. */
  lemma WriteCarries(a: Stand, b: Stand)
    requires b == a.(outside := ToCome(a.outside.incoming, Later(a.outside.sends)))
    ensures var sent := NextSend(a.outside.sends) == WriteOutcome.Sent;
            Carried(if sent then [Write] else [], a, b) && (sent ==> AllSent(a.outside.sends, b.outside.sends))
  {
    assert [Write][..0] == [];
    if a.outside.sends != [] {
      assert Used(a.outside.sends, b.outside.sends) == [a.outside.sends[0]];
    }
    assert a.brigade + [] == a.brigade;
  }

  /** The dialogue is of messages only, and each of them can be written at once. */
  predicate Flows(dialogue: seq<Op>, sends: seq<WriteOutcome>) {
    |sends| >= |dialogue| && forall i | 0 <= i < |dialogue| :: dialogue[i] == Write && sends[i] == WriteOutcome.Sent
  }

  datatype ReadCode = Type(t: byte) | ReadAgain | ReadFail

  datatype Rc = Done | Eagain | Failure

  class KexSession {
    var kexActive: bool
    var exchangingKeys: bool
    /** `startup_key_state`, the one state all key exchanges use. */
    var keyState: KeyState
    /** Key exchange and host key method are set. */
    var bothSet: bool
    /** The last negotiation ended in agreement. */
    ghost var agreed: bool
    const dialogue: seq<Op>
    var low: nat
    var requireStarted: bool
    /** The types of the packets in the brigade. */
    var brigade: seq<byte>
    var incoming: seq<Incoming>
    var sends: seq<WriteOutcome>
    /** What `libssh2_kex_agree_methods` will answer. */
    var agreements: seq<Answer>
    var connected: bool
    var socketBlock: bool
    /** How many calls of `libssh2_kex_exchange` are active, and the most there ever were. */
    ghost var depth: nat
    ghost var deepest: nat

    constructor (dialogue: seq<Op>, incoming: seq<Incoming>, sends: seq<WriteOutcome>, agreements: seq<Answer>, socketBlock: bool)
      ensures Resting() && deepest == 0 && !exchangingKeys && !bothSet && !requireStarted && brigade == []
      ensures this.dialogue == dialogue && this.sends == sends && this.agreements == agreements
    {
      this.dialogue, this.incoming, this.sends := dialogue, incoming, sends;
      this.agreements, this.socketBlock := agreements, socketBlock;
      kexActive, exchangingKeys, keyState, bothSet, low, requireStarted := false, false, Idle, false, 0, false;
      brigade, connected, depth, deepest, agreed := [], true, 0, 0, false;
    }

    /** No exchange is active; one is unfinished just when the flag says so. */
    ghost predicate Resting()
      reads this`kexActive, this`depth, this`deepest, this`exchangingKeys, this`keyState, this`low, this`bothSet
    {
      !kexActive && depth == 0 && deepest <= 1 && (exchangingKeys <==> keyState != Idle) && InStep() &&
      (keyState != Idle ==> (bothSet <==> keyState == Sent2))
    }

    /** One exchange is active. */
    ghost predicate Exchanging()
      reads this`kexActive, this`depth, this`deepest, this`exchangingKeys, this`keyState, this`low
    {
      kexActive && depth == 1 && deepest == 1 && exchangingKeys && keyState != Idle && InStep()
    }

    ghost predicate InStep()
      reads this`low, this`keyState
    {
      low <= |dialogue| && (keyState != Sent2 ==> low == 0)
    }

    ghost function Outside(): Outside
      reads this`incoming, this`sends
    {
      ToCome(incoming, sends)
    }

    ghost function Now(): Stand
      reads this`brigade, this`incoming, this`sends
    {
      Stand(brigade, Outside())
    }

    /** What an exchange does from its beginning. */
    ghost function Course(): (ops: seq<Op>)
      ensures |ops| == 2 + |dialogue| && ops == [Write, Require(20)] + dialogue
    {
      [Write, Require(SSH_MSG_KEXINIT)] + dialogue
    }

    /** How far the exchange under way has come in that. */
    ghost function Place(): nat
      reads this`keyState, this`low
    {
      if keyState == Sent2 then 2 + low else if keyState == Sent1 then 1 else 0
    }

    /** The connection holds, and the peer can be agreed with. */
    ghost predicate Healthy()
      reads this`connected, this`incoming, this`sends, this`agreements
    {
      && connected && Broken !in incoming && Packet(0) !in incoming && WriteOutcome.Failed !in sends
      && forall a <- agreements :: a == Agrees
    }

    lemma StaysConnected()
      ensures Healthy() ==> connected
    {
    }

    /** What belongs to an exchange stays as it is. */
    twostate predicate Undisturbed()
      reads this`kexActive, this`depth, this`deepest, this`exchangingKeys, this`keyState, this`low, this`bothSet, this`agreed,
            this`agreements
    {
      Exchanging() && keyState == old(keyState) && bothSet == old(bothSet) && agreed == old(agreed) && low == old(low) &&
      agreements == old(agreements)
    }

    method PacketWrite() returns (w: WriteOutcome)
      modifies this`sends
      ensures w == NextSend(old(sends)) && sends == Later(old(sends))
      ensures (old(Healthy()) ==> Healthy() && w != WriteOutcome.Failed)
    {
      LaterIn(sends);
      w := if sends == [] then Again else sends[0];
      sends := if sends == [] then [] else sends[1..];
    }

    /** `libssh2_packet_ask_ex`, by type only. */
    method PacketAsk(t: byte) returns (found: bool)
      modifies this`brigade
      ensures found <==> t in old(brigade)
      ensures brigade == if found then Less(old(brigade), t) else old(brigade)
    {
      var i := 0;
      while i < |brigade|
        invariant i <= |brigade| && t !in brigade[..i] && brigade == old(brigade)
      {
        if brigade[i] == t {
          LessAt(brigade, i, t);
          brigade := Without(brigade, i);
          return true;
        }
        i := i + 1;
      }
      return false;
    }

    /** `libssh2_packet_add` as far as key exchange goes (packet.c:893-951). An exchange is begun only
        if none is under way, so its state is wiped only when it holds nothing. */
    method PacketAdd(t: byte) returns (rc: Rc)
      requires Resting() || Exchanging()
      modifies this
      ensures old(Exchanging()) ==> Undisturbed() && rc == Done && Now() == Stand(old(brigade) + [t], old(Outside()))
      ensures old(Healthy()) ==> Healthy()
      ensures old(Resting()) ==> Resting() && (!old(exchangingKeys) ==> (rc == Eagain <==> exchangingKeys))
      ensures old(Resting()) && old(exchangingKeys) ==> exchangingKeys && keyState == old(keyState) && rc == Done
      ensures |incoming| <= old(|incoming|) && (rc == Done || rc == Eagain)
      ensures Went(old(Outside()), Outside()) && (rc == Eagain ==> Waits(old(Outside()), Outside()))
      decreases |incoming|, !kexActive, 2
    {
      hide Went, Waits;
      WentOne(Outside(), Outside());
      brigade := brigade + [t];
      if t == SSH_MSG_KEXINIT && !exchangingKeys {
        keyState, low, requireStarted := Idle, 0, false;
        ghost var from, to;
        rc, from, to := KexExchange(true);
        if rc == Eagain {
          return;
        }
      }
      rc := Done;
    }

    /** `libssh2_packet_read` as far as key exchange goes (transport.c:286-304). Whoever is not the
        exchange itself is given no packet before the exchange is over. */
    method PacketRead() returns (r: ReadCode)
      requires Resting() || Exchanging()
      modifies this
      ensures old(Exchanging()) ==> Undisturbed() && Taken(old(Now()), Now())
      ensures old(Healthy()) ==> Healthy() && r != ReadFail && (old(Exchanging()) && r.Type? ==> r.t in brigade && r.t != 0)
      ensures old(Resting()) ==> Resting() && (r.Type? ==> !exchangingKeys)
      ensures |incoming| <= old(|incoming|) && (r.Type? && connected ==> |incoming| < old(|incoming|))
      ensures Went(old(Outside()), Outside())
      ensures r == ReadAgain || (r == Type(0) && old(connected && kexActive)) ==> Waits(old(Outside()), Outside())
      decreases |incoming|, !kexActive, 4
    {
      hide Went, Waits, KexSession.InStep;
      ghost var first := Outside();
      WentOne(first, first);
      if exchangingKeys && !kexActive {
        var status, from, to := KexExchange(true);
        if status == Eagain {
          return ReadAgain;
        } else if status != Done {
          return ReadFail;
        }
      }
      ghost var before := Outside();
      r := TakeNext();
      WentThen(first, before, Outside());
    }

    /** The rest of it, when no exchange is unfinished or by the exchange itself. */
    method TakeNext() returns (r: ReadCode)
      requires (Resting() && !exchangingKeys) || Exchanging()
      modifies this
      ensures old(Exchanging()) ==> Undisturbed() && Taken(old(Now()), Now())
      ensures old(Healthy()) ==> Healthy() && r != ReadFail && (old(Exchanging()) && r.Type? ==> r.t in brigade && r.t != 0)
      ensures old(Resting()) ==> Resting() && (r.Type? ==> !exchangingKeys)
      ensures |incoming| <= old(|incoming|) && (r.Type? && connected ==> |incoming| < old(|incoming|))
      ensures Went(old(Outside()), Outside())
      ensures r == ReadAgain || (r == Type(0) && old(connected && kexActive)) ==> Waits(old(Outside()), Outside())
      decreases |incoming|, !kexActive, 3
    {
      hide Went, Waits, KexSession.InStep;
      ghost var first := Outside();
      WentOne(first, first);
      if !connected {
        return Type(0);
      }
      WentOne(first, ToCome(Later(incoming), sends));
      if incoming == [] || incoming[0] == NoData {
        incoming := if incoming == [] then [] else incoming[1..];
        return ReadAgain;
      }
      var next := incoming[0];
      incoming := incoming[1..];
      ghost var mid := Outside();
      if next == Broken {
        connected := false;
        return ReadFail;
      }
      var rc := PacketAdd(next.t);
      WentThen(first, mid, Outside());
      if rc == Eagain {
        return ReadAgain;
      }
      return Type(next.t);
    }

    /** `libssh2_packet_require_ex`; a wait that times out is a failure. */
    method PacketRequire(t: byte, timeout: bool) returns (rc: Rc)
      requires Exchanging()
      modifies this
      ensures Undisturbed() && |incoming| <= old(|incoming|)
      ensures Awaited(rc == Done, t, old(Now()), Now()) && sends == old(sends)
      ensures !old(requireStarted) && t in old(brigade) ==> rc == Done && incoming == old(incoming)
      ensures old(Healthy()) ==> Healthy() && rc != Failure
      ensures Went(old(Outside()), Outside()) && (rc == Eagain ==> Waits(old(Outside()), Outside()))
      decreases |incoming|, !kexActive, 6
    {
      hide Waits, KexSession.Healthy, KexSession.InStep, KexSession.Resting;
      assert brigade + [] == brigade;
      if !requireStarted {
        var there := PacketAsk(t);
        if there {
          return Done;
        }
        requireStarted := true;
      }
      rc := AwaitPacket(t, timeout);
    }

    /** A packet has come in; the brigade may be searched. */
    method Pull(t: byte, ghost first: Stand) returns (rc: Rc)
      requires Exchanging() && Awaited(false, t, first, Now())
      modifies this`brigade, this`requireStarted
      ensures Awaited(rc == Done, t, first, Now()) && (rc == Done || rc == Failure)
      ensures (t in old(brigade) ==> rc == Done)
    {
      var there := PacketAsk(t);
      requireStarted := false;
      return if there then Done else Failure;
    }

    /** The loop of packet.c:1113-1144: packets are read until the one waited for is there. */
    method AwaitPacket(t: byte, timeout: bool) returns (rc: Rc)
      requires Exchanging()
      modifies this
      ensures Undisturbed() && |incoming| <= old(|incoming|)
      ensures Awaited(rc == Done, t, old(Now()), Now())
      ensures old(Healthy()) ==> Healthy() && rc != Failure
      ensures Went(old(Outside()), Outside()) && (rc == Eagain ==> Waits(old(Outside()), Outside()))
      decreases |incoming|, !kexActive, 5
    {
      hide Went, Waits, Awaited, Taken, KexSession.Healthy, KexSession.InStep, KexSession.Resting;
      StaysConnected();
      NothingAwaited(t, Now());
      WentOne(Outside(), Outside());
      while connected
        invariant Went(old(Outside()), Outside()) && Awaited(false, t, old(Now()), Now())
        invariant Undisturbed() && |incoming| <= old(|incoming|)
        invariant old(Healthy()) ==> Healthy()
        decreases |incoming|, connected
      {
        ghost var before := Now();
        var ret := PacketRead();
        StaysConnected();
        WentThen(old(Outside()), before.outside, Outside());
        TakenAwaits(t, before, Now());
        AwaitedThen(false, t, old(Now()), before, Now());
        if ret == ReadAgain || (ret == Type(0) && !socketBlock) {
          return Eagain;
        } else if ret == ReadFail {
          requireStarted := false;
          return Failure;
        } else if ret == Type(t) {
          rc := Pull(t, old(Now()));
          return;
        } else if ret == Type(0) && timeout {
          requireStarted := false;
          return Failure;
        }
      }
      StaysConnected();
      return Failure;
    }

    /** The next step of the dialogue. */
    method Perform() returns (rc: Rc)
      requires Exchanging() && keyState == Sent2 && low < |dialogue|
      modifies this
      ensures Exchanging() && keyState == old(keyState) && bothSet == old(bothSet) && agreed == old(agreed)
      ensures |incoming| <= old(|incoming|)
      ensures agreements == old(agreements) && low == old(low) + if rc == Done then 1 else 0
      ensures Carried(dialogue[old(low)..low], old(Now()), Now()) && (rc == Done ==> AllSent(old(sends), sends))
      ensures dialogue[old(low)] == Write ==>
                (rc == Done <==> NextSend(old(sends)) == WriteOutcome.Sent) && sends == Later(old(sends))
      ensures old(Healthy()) ==> Healthy() && rc != Failure
      ensures Went(old(Outside()), Outside()) && (rc == Eagain ==> Waits(old(Outside()), Outside()))
      decreases |incoming|, !kexActive, 7
    {
      hide Went, Waits, Carried, Awaited, AllSent;
      ghost var before := Now();
      var op := dialogue[low];
      match op {
        case Write =>
          WriteCarries(before, before.(outside := ToCome(incoming, Later(sends))));
          var w := PacketWrite();
          WentOne(before.outside, Outside());
          rc := if w == WriteOutcome.Sent then Done else if w == Again then Eagain else Failure;
        case Require(t) =>
          rc := PacketRequire(t, true);
          AwaitedCarries(rc == Done, t, before, Now());
      }
      assert dialogue[low..low + 1] == [op] && dialogue[low..low] == [];
      if rc == Done {
        low := low + 1;
      }
    }

    /** `exchange_keys` of the method agreed on: taken up where it was left; the steps up to where it is
        left now are carried out, and it is done when all are. */
    method ExchangeKeys() returns (rc: Rc, ghost to: nat)
      requires Exchanging() && keyState == Sent2
      modifies this
      ensures Exchanging() && keyState == old(keyState) && bothSet == old(bothSet) && agreed == old(agreed)
      ensures |incoming| <= old(|incoming|)
      ensures agreements == old(agreements)
      ensures old(low) <= to <= |dialogue| && Carried(dialogue[old(low)..to], old(Now()), Now())
      ensures rc == Done ==> to == |dialogue| && AllSent(old(sends), sends)
      ensures low == if rc == Eagain then to else 0
      ensures old(low) == 0 && Flows(dialogue, old(sends)) ==> rc == Done
      ensures old(Healthy()) ==> Healthy() && rc != Failure
      ensures Went(old(Outside()), Outside()) && (rc == Eagain ==> Waits(old(Outside()), Outside()))
      decreases |incoming|, !kexActive, 8
    {
      hide Went, Waits, Carried, AllSent, KexSession.Healthy;
      WentOne(Outside(), Outside());
      NothingCarried(Now());
      NothingSent(sends);
      assert dialogue[low..low] == [];
      while low < |dialogue|
        invariant Exchanging() && keyState == old(keyState) && bothSet == old(bothSet) && agreed == old(agreed)
        invariant |incoming| <= old(|incoming|)
        invariant agreements == old(agreements) && Went(old(Outside()), Outside())
        invariant AllSent(old(sends), sends)
        invariant old(low) <= low && Carried(dialogue[old(low)..low], old(Now()), Now())
        invariant old(low) == 0 && Flows(dialogue, old(sends)) ==> sends == old(sends)[low..]
        invariant old(Healthy()) ==> Healthy()
        decreases |dialogue| - low
      {
        ghost var before, at := Now(), low;
        rc := Perform();
        WentThen(old(Outside()), before.outside, Outside());
        CarriedThen(dialogue[old(low)..at], dialogue[at..low], old(Now()), before, Now());
        assert dialogue[old(low)..at] + dialogue[at..low] == dialogue[old(low)..low];
        if rc != Done {
          to := low;
          if rc == Failure {
            low := 0;
          }
          return;
        }
        AllSentThen(old(sends), before.outside.sends, sends);
      }
      to := low;
      low := 0;
      return Done, to;
    }

    /** The call returns, with the exchange unfinished or over. */
    method Leave(unfinished: bool)
      requires Exchanging() && (if unfinished then bothSet <==> keyState == Sent2 else low == 0)
      modifies this`kexActive, this`exchangingKeys, this`keyState, this`depth
      ensures Resting() && exchangingKeys == unfinished && keyState == if unfinished then old(keyState) else Idle
    {
      kexActive := false;
      depth := depth - 1;
      if !unfinished {
        exchangingKeys := false;
        keyState := Idle;
      }
    }

    /** `libssh2_kex_agree_methods` (lines 1752-1757). */
    method Agree() returns (rc: Rc)
      requires Exchanging() && keyState == Sent1
      modifies this`agreements, this`bothSet, this`agreed, this`keyState
      ensures Exchanging() && keyState == Sent2 && agreements == Later(old(agreements))
      ensures agreed == (NextAnswer(old(agreements)) == Agrees)
      ensures bothSet == (NextAnswer(old(agreements)) != Refuses(false))
      ensures rc == (if agreed then Done else Failure) && (old(Healthy()) ==> Healthy() && agreed)
    {
      LaterIn(agreements);
      var answer := if agreements == [] then Agrees else agreements[0];
      agreements := if agreements == [] then [] else agreements[1..];
      bothSet := answer == Agrees || answer == Refuses(true);
      agreed := answer == Agrees;
      keyState := Sent2;
      rc := if answer == Agrees then Done else Failure;
    }

    /** KEXINIT goes out (lines 1703-1726). */
    method SendKexinit() returns (retcode: WriteOutcome)
      requires Exchanging() && (keyState == Created || keyState == KeyState.Sent)
      modifies this`keyState, this`sends
      ensures Exchanging() && retcode == NextSend(old(sends)) && sends == Later(old(sends))
      ensures keyState == if retcode == WriteOutcome.Sent then Sent1 else KeyState.Sent
      ensures Carried(if retcode == WriteOutcome.Sent then [Write] else [], old(Now()), Now())
      ensures retcode == WriteOutcome.Sent ==> AllSent(old(sends), sends)
      ensures old(Healthy()) ==> Healthy() && retcode != WriteOutcome.Failed
      ensures Went(old(Outside()), Outside()) && (retcode == Again ==> Waits(old(Outside()), Outside()))
    {
      hide Waits, Carried, AllSent;
      ghost var first := Now();
      if keyState == Created {
        keyState := KeyState.Sent;
      }
      WriteCarries(first, first.(outside := ToCome(incoming, Later(sends))));
      retcode := PacketWrite();
      WentOne(first.outside, Outside());
      if retcode == WriteOutcome.Sent {
        keyState := Sent1;
      }
    }

    /** KEXINIT goes out and comes in, and methods are agreed on (lines 1703-1763); `over` if the call is
        over with that. */
    method Negotiate() returns (over: bool, rc: Rc, ghost to: nat)
      requires Exchanging() && !bothSet && keyState != Sent2
      modifies this
      ensures |incoming| <= old(|incoming|)
      ensures old(Place()) <= to <= 2 && Carried(Course()[old(Place())..to], old(Now()), Now())
      ensures over ==> Resting() && rc != Done && (rc == Eagain <==> exchangingKeys) && to < 2 && !bothSet
      ensures over ==> agreed == old(agreed) && agreements == old(agreements) && (rc == Eagain ==> to == Place())
      ensures !over ==>
                && Exchanging() && rc == (if agreed then Done else Failure) && keyState == Sent2 && low == 0 && to == 2
                && agreements == Later(old(agreements)) && agreed == (NextAnswer(old(agreements)) == Agrees)
                && bothSet == (NextAnswer(old(agreements)) != Refuses(false))
      ensures rc == Done ==> AllSent(old(sends), sends)
      ensures old(keyState) == Created && old(Prompt()) ==> !over && sends == Later(old(sends))
      ensures old(Healthy()) ==> Healthy() && rc != Failure
      ensures Went(old(Outside()), Outside()) && (rc == Eagain ==> Waits(old(Outside()), Outside()))
      decreases |incoming|, !kexActive, 8
    {
      hide Flows, KexSession.Healthy, Went, Waits, Carried, AllSent, KexSession.Course;
      ghost var first, at := Now(), Place();
      ghost var head := if at == 0 then [Write] else [];
      Beginning();
      WentOne(first.outside, first.outside);
      NothingCarried(first);
      NothingSent(sends);
      if keyState != Sent1 {
        var retcode := SendKexinit();
        if retcode != WriteOutcome.Sent {
          Leave(retcode == Again);
          return true, if retcode == Again then Eagain else Failure, 0;
        }
      }
      var retcode := AwaitKexinit(first, head);
      if retcode != Done {
        Leave(retcode == Eagain);
        return true, if retcode == Eagain then Eagain else Failure, 1;
      }
      rc := Agree();
      return false, rc, 2;
    }

    /** The peer's KEXINIT is waited for (lines 1729-1750). */
    method AwaitKexinit(ghost first: Stand, ghost head: seq<Op>) returns (rc: Rc)
      requires Exchanging() && keyState == Sent1
      requires Carried(head, first, Now()) && AllSent(first.outside.sends, sends) && Went(first.outside, Outside())
      modifies this
      ensures Undisturbed() && |incoming| <= old(|incoming|) && sends == old(sends)
      ensures Carried(if rc == Done then head + [Require(SSH_MSG_KEXINIT)] else head, first, Now())
      ensures AllSent(first.outside.sends, sends)
      ensures !old(requireStarted) && SSH_MSG_KEXINIT in old(brigade) ==> rc == Done
      ensures old(Healthy()) ==> Healthy() && rc != Failure
      ensures Went(first.outside, Outside()) && (rc == Eagain ==> Waits(first.outside, Outside()))
      decreases |incoming|, !kexActive, 7
    {
      hide KexSession.Healthy, Went, Waits, Carried, Awaited, AllSent;
      ghost var before := Now();
      rc := PacketRequire(SSH_MSG_KEXINIT, true);
      WentThen(first.outside, before.outside, Outside());
      AwaitedCarries(rc == Done, SSH_MSG_KEXINIT, before, Now());
      CarriedThen(head, if rc == Done then [Require(SSH_MSG_KEXINIT)] else [], first, before, Now());
      assert head + [] == head;
    }

    lemma Beginning()
      ensures Course()[0..0] == Course()[1..1] == [] && Course()[0..1] == [Write]
      ensures Course()[1..2] == [] + [Require(SSH_MSG_KEXINIT)]
      ensures Course()[0..2] == [Write] + [Require(SSH_MSG_KEXINIT)]
    {
    }

    /** The peer's KEXINIT is there, and ours can be sent at once. */
    ghost predicate Prompt()
      reads this`sends, this`requireStarted, this`brigade
    {
      NextSend(sends) == WriteOutcome.Sent && !requireStarted && SSH_MSG_KEXINIT in brigade
    }

    /** Where a call of the function takes the exchange up. */
    ghost function Start(reexchange: bool): (from: nat)
      reads this`keyState, this`low, this`bothSet
    {
      if keyState != Idle then Place() else if bothSet && !reexchange then 2 else 0
    }

    /** `libssh2_kex_exchange`. It is never called while one is active; when it returns none is, and the
        flag that one is unfinished is set just when it must be called again. What it does is the part of
        the exchange from where it was left to where it is left now, and it is done at the end; a
        negotiation among that is the one that sets the methods. So it may succeed though they have not
        been agreed on: just when, at entry, both were set though the last negotiation refused, and this is
        no re-exchange begun. */
    method KexExchange(reexchange: bool) returns (rc: Rc, ghost from: nat, ghost to: nat)
      requires Resting()
      modifies this
      ensures Resting() && (rc == Eagain <==> exchangingKeys)
      ensures from == old(Start(reexchange)) <= to <= |Course()| && Carried(Course()[from..to], old(Now()), Now())
      ensures rc == Done ==> bothSet && to == |Course()| && AllSent(old(sends), sends)
      ensures rc == Eagain ==> to == Place()
      ensures if from < 2 <= to
              then && agreements == Later(old(agreements)) && agreed == (NextAnswer(old(agreements)) == Agrees)
                   && bothSet == (NextAnswer(old(agreements)) != Refuses(false)) && (!agreed ==> rc == Failure && to == 2)
              else && agreements == old(agreements) && agreed == old(agreed)
                   && bothSet == (old(bothSet) && !(old(keyState) == Idle && reexchange))
      ensures rc == Done ==> (agreed <==> (old(keyState) == Idle && reexchange) || old(bothSet ==> agreed))
      ensures old(keyState) == Idle && (reexchange || !old(bothSet)) && old(Prompt()) ==>
                to >= 2 && (NextAnswer(old(agreements)) != Agrees ==> sends == Later(old(sends)))
      ensures old(keyState) == Idle && !reexchange && old(bothSet) && Flows(dialogue, old(sends)) ==> rc == Done
      ensures |incoming| <= old(|incoming|)
      ensures old(Healthy()) ==> Healthy() && rc != Failure
      ensures Went(old(Outside()), Outside()) && (rc == Eagain ==> Waits(old(Outside()), Outside()))
      decreases |incoming|, !kexActive, 1
    {
      hide Flows, Went, Waits, Carried, AllSent, KexSession.Healthy, KexSession.Course, KexSession.Prompt, NextAnswer;
      ghost var first := Now();
      var over;
      over, rc, from, to := Begin(reexchange);
      if over {
        return;
      }
      if rc == Done {
        rc, to := Converse(first, from);
      }
      Leave(rc == Eagain);
    }

    /** Lines 1677-1766: up to the dialogue. */
    method Begin(reexchange: bool) returns (over: bool, rc: Rc, ghost from: nat, ghost to: nat)
      requires Resting()
      modifies this
      ensures from == old(Start(reexchange)) <= to <= |Course()| && Carried(Course()[from..to], old(Now()), Now())
      ensures over ==> Resting() && rc != Done && (rc == Eagain <==> exchangingKeys) && to < 2
      ensures over && rc == Eagain ==> to == Place()
      ensures !over ==> Exchanging() && keyState == Sent2 && to == 2 + low
      ensures !over && rc == Done ==> bothSet && AllSent(old(sends), sends)
      ensures !over && rc != Done ==> rc == Failure && low == 0
      ensures if from < 2 <= to
              then && agreements == Later(old(agreements)) && agreed == (NextAnswer(old(agreements)) == Agrees)
                   && bothSet == (NextAnswer(old(agreements)) != Refuses(false)) && rc == (if agreed then Done else Failure)
              else && agreements == old(agreements) && agreed == old(agreed)
                   && bothSet == (old(bothSet) && !(old(keyState) == Idle && reexchange))
                   && (!over ==> rc == Done && sends == old(sends) && low == old(low))
      ensures old(keyState) == Idle && (reexchange || !old(bothSet)) && old(Prompt()) ==> !over && sends == Later(old(sends))
      ensures |incoming| <= old(|incoming|)
      ensures old(Healthy()) ==> Healthy() && rc != Failure
      ensures Went(old(Outside()), Outside()) && (rc == Eagain ==> Waits(old(Outside()), Outside()))
      decreases |incoming|, !kexActive, 0
    {
      hide Flows, Went, Waits, Carried, AllSent, KexSession.Healthy, KexSession.Course, KexSession.Prompt, NextAnswer;
      from := Start(reexchange);
      WentOne(Outside(), Outside());
      NothingCarried(Now());
      NothingSent(sends);
      Empty(from);
      Enter(reexchange);
      if bothSet {
        keyState := Sent2;
        return false, Done, from, from;
      }
      over, rc, to := Negotiate();
    }

    lemma Empty(i: nat)
      requires i <= 2 + |dialogue|
      ensures Course()[i..i] == []
    {
    }

    /** The dialogue is carried on (lines 1769-1781). */
    method Converse(ghost first: Stand, ghost from: nat) returns (rc: Rc, ghost to: nat)
      requires Exchanging() && keyState == Sent2 && from <= 2 + low
      requires Carried(Course()[from..2 + low], first, Now()) && AllSent(first.outside.sends, sends)
      requires Went(first.outside, Outside())
      modifies this
      ensures Exchanging() && keyState == old(keyState) && bothSet == old(bothSet) && agreed == old(agreed)
      ensures |incoming| <= old(|incoming|)
      ensures agreements == old(agreements) && low == (if rc == Eagain then to - 2 else 0)
      ensures 2 + old(low) <= to <= |Course()| && Carried(Course()[from..to], first, Now())
      ensures rc == Done ==> to == |Course()| && AllSent(first.outside.sends, sends)
      ensures old(low) == 0 && Flows(dialogue, old(sends)) ==> rc == Done
      ensures old(Healthy()) ==> Healthy() && rc != Failure
      ensures Went(first.outside, Outside()) && (rc == Eagain ==> Waits(first.outside, Outside()))
      decreases |incoming|, !kexActive, 9
    {
      hide Flows, Went, Waits, Carried, AllSent, KexSession.Healthy;
      ghost var before, at, n := Now(), low, 0;
      rc, n := ExchangeKeys();
      to := 2 + n;
      WentThen(first.outside, before.outside, Outside());
      DialoguePart(from, at, n);
      CarriedThen(Course()[from..2 + at], Course()[2 + at..to], first, before, Now());
      if rc == Done {
        AllSentThen(first.outside.sends, before.outside.sends, sends);
      }
    }

    lemma DialoguePart(from: nat, i: nat, j: nat)
      requires i <= j <= |dialogue| && from <= 2 + i
      ensures Course()[2 + i..2 + j] == dialogue[i..j]
      ensures Course()[from..2 + i] + Course()[2 + i..2 + j] == Course()[from..2 + j]
    {
    }

    /** Lines 1671-1690. */
    method Enter(reexchange: bool)
      requires Resting()
      modifies this`kexActive, this`exchangingKeys, this`keyState, this`depth, this`deepest, this`bothSet
      ensures Exchanging() && low == old(low)
      ensures if old(keyState) == Idle then keyState == Created && bothSet == (old(bothSet) && !reexchange)
              else keyState == old(keyState) && bothSet == old(bothSet)
    {
      kexActive := true;
      depth := depth + 1;
      deepest := if depth > deepest then depth else deepest;
      if keyState == Idle {
        exchangingKeys := true;
        if reexchange {
          bothSet := false;
        }
        keyState := Created;
      }
    }
  }

  lemma NothingAwaited(t: byte, a: Stand)
    ensures Awaited(false, t, a, a)
  {
    assert a.brigade + [] == a.brigade;
  }

  lemma NothingSent(sends: seq<WriteOutcome>)
    ensures AllSent(sends, sends)
  {
  }

  /** The peer refuses, but both methods have been set by then: the start-up fails. Started once more,
      it skips the negotiation and succeeds. */
  method RefusedThenDone() returns (s: KexSession, first: Rc, second: Rc)
    ensures first == Failure && second == Done && !s.agreed
  {
    hide Went, Waits, KexSession.Healthy, Carried, AllSent;
    s := new KexSession([Write], [], [WriteOutcome.Sent, WriteOutcome.Sent], [Refuses(true)], true);
    s.brigade := [SSH_MSG_KEXINIT];
    ghost var from, to;
    first, from, to := s.KexExchange(false);
    second, from, to := s.KexExchange(false);
  }
}
