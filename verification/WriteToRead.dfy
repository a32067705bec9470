/** From `libssh2_channel_write_ex` at one end to the queue of a reader at the other. */
module WriteToRead {
  import opened Bytes
  import opened Brigade
  import opened Flow
  import opened ByteQueue
  import opened ChannelWorld
  import opened ChannelWrite
  import opened PeerMessages

  /** The messages as they come in at the other end. */
  function Letters(ms: seq<seq<byte>>): (letters: seq<Incoming>)
    ensures |letters| == |ms| && forall i | 0 <= i < |ms| :: letters[i] == Payload(ms[i])
  {
    seq(|ms|, i requires 0 <= i < |ms| => Payload(ms[i]))
  }

  /** So many packets are read. */
  function Listens(n: nat): (deeds: seq<Deed>)
    ensures |deeds| == n && forall i | 0 <= i < n :: deeds[i] == Listen
  {
    seq(n, _ => Listen)
  }

  /** The reader takes data of this stream in, and the channel in place `k` does not ignore it. */
  predicate Takes(w: World, k: nat, streamId: u32, r: Consumer)
    requires k < |w.views|
  {
    && (streamId != 0 ==> w.views[k].flow.mode != Ignore)
    && (r.stream == streamId || (r.stream == 0 && r.mode == Merge))
  }

  /** The messages that carry `parts`, all within the window, are read one after the other. */
  lemma {:induction false} PartsHeard(w: World, k: nat, streamId: u32, parts: seq<seq<byte>>, r: Consumer, rest: seq<Incoming>)
    requires w.adding == None && w.connected && Find(w.views, r.id) == Some(k) && Takes(w, k, streamId, r)
    requires forall p <- parts :: |p| + 13 < TWO32 && |p| <= w.views[k].flow.packetSize
    requires |Flatten(parts)| <= w.views[k].flow.window
    requires w.incoming == Letters(Messages(r.id, streamId, parts)) + rest
    ensures Queue(r, Linked(w, Listens(|parts|))) == Flatten(parts)
    ensures var w', f := After(w, Listens(|parts|)), w.views[k].flow;
            && w'.adding == None && w'.connected && w'.incoming == rest && Find(w'.views, r.id) == Some(k)
            && w'.views[k].flow == f.(window := f.window - |Flatten(parts)|)
    decreases |parts|
  {
    hide ReadLinks, Listened, DataMessage, Queue, Find, Letters, Listens, Messages, After, Linked, Done, Flatten;
    NothingQueued(r, []);
    NothingYet(w, r.id, streamId);
    if parts == [] {
      assert [] + rest == rest;
    } else {
      var n := |parts| - 1;
      var front, last := parts[..n], parts[n];
      var m := DataMessage(r.id, streamId, last);
      assert parts == front + [last];
      FlattenMore(front, last);
      LettersMore(r.id, streamId, front, last);
      Associative(Letters(Messages(r.id, streamId, front)), [Payload(m)], rest);
      PartsHeard(w, k, streamId, front, r, [Payload(m)] + rest);
      OneMoreHeard(w, n);
      PartHeard(After(w, Listens(n)), k, streamId, last, r, Linked(w, Listens(n)));
    }
  }

  lemma NothingYet(w: World, id: u32, streamId: u32)
    ensures Letters(Messages(id, streamId, [])) == [] && Flatten([]) == []
    ensures After(w, Listens(0)) == w && Linked(w, Listens(0)) == []
  {
  }

  lemma LettersMore(id: u32, streamId: u32, parts: seq<seq<byte>>, part: seq<byte>)
    requires |part| < TWO32
    ensures Letters(Messages(id, streamId, parts + [part])) ==
              Letters(Messages(id, streamId, parts)) + [Payload(DataMessage(id, streamId, part))]
  {
    hide DataMessage, Messages;
    MessagesMore(id, streamId, parts, part);
  }

  lemma OneMoreHeard(w: World, n: nat)
    ensures After(w, Listens(n + 1)) == Listened(After(w, Listens(n)))
    ensures Linked(w, Listens(n + 1)) == Linked(w, Listens(n)) + ReadLinks(After(w, Listens(n)))
  {
    hide Listened, ReadLinks;
    AfterMore(w, Listens(n), Listen);
    assert Listens(n + 1) == Listens(n) + [Listen];
  }

  /** What a call of `libssh2_channel_write_ex` has sent up to any moment (`deeds` being its deeds, see
      `ChannelWrite.WriteEx`) are, window adjustments apart, the messages `ms`. When the other end reads
      these, and they are within packet size and window there, a reader of the stream finds exactly the
      bytes that the call has sent, in order. */
  lemma WriteIsRead(t: Task, deeds: seq<Deed>, ms: seq<seq<byte>>, w: World, k: nat, r: Consumer, rest: seq<Incoming>)
    requires Proper(t, deeds) && Find(t.world.views, t.id).Some?
    requires r.id == t.world.views[Find(t.world.views, t.id).value].remoteId
    requires Spoken(After(t.world, deeds).sent) == Spoken(t.world.sent) + ms && w.incoming == Letters(ms) + rest
    requires w.adding == None && w.connected && Find(w.views, r.id) == Some(k) && Takes(w, k, t.streamId, r)
    requires t.packetSize + 13 < TWO32 && t.packetSize <= w.views[k].flow.packetSize
    requires |Flatten(Parts(t.world, deeds))| <= w.views[k].flow.window
    ensures Queue(r, Linked(w, Listens(|ms|))) == Flatten(Parts(t.world, deeds))
    ensures var w' := After(w, Listens(|ms|));
            && w'.incoming == rest
            && w'.views[k].flow.window == w.views[k].flow.window - |Flatten(Parts(t.world, deeds))|
  {
    hide After, Proper, Spoken, Find, Window, Queue, Linked;
    Accounts(t, deeds);
    var parts := Parts(t.world, deeds);
    PartsSmall(t, deeds);
    AllMessages(r.id, t.streamId, parts);
    SameTail(Spoken(t.world.sent), ms, Messages(r.id, t.streamId, parts));
    PartsHeard(w, k, t.streamId, parts, r, rest);
  }

  lemma SameTail<T>(a: seq<T>, b: seq<T>, c: seq<T>)
    requires a + b == a + c
    ensures b == c
  {
    assert (a + b)[|a|..] == b && (a + c)[|a|..] == c;
  }

  lemma {:induction false} AllMessages(id: u32, streamId: u32, parts: seq<seq<byte>>)
    requires forall p <- parts :: |p| < TWO32
    ensures |Messages(id, streamId, parts)| == |parts|
  {
    hide DataMessage;
    if parts != [] {
      AllMessages(id, streamId, parts[..|parts| - 1]);
    }
  }

  /** Every message is within the packet size. */
  lemma {:induction false} PartsSmall(t: Task, deeds: seq<Deed>)
    requires Proper(t, deeds)
    ensures forall p <- Parts(t.world, deeds) :: |p| <= t.packetSize
  {
    hide After, Flatten, Proper, Full;
    if deeds != [] {
      var n := |deeds| - 1;
      ProperPrefix(t, deeds, n);
      PartsSmall(t, deeds[..n]);
    }
  }
}
