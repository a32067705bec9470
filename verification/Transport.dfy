/** Writer and reader of one direction joined: what goes into `libssh2_packet_write` comes out of
    `libssh2_packet_read`. */
module Transport {
  import opened TransportSpec
  import opened PacketReader
  import opened PacketWriter
  import opened Socket

  lemma SenderStreamOk(tx: Mode, rx: Mode, random: bool, e: End, msgs: seq<Message>)
    requires Paired(tx, rx) && AllSendable(tx, random, msgs)
    ensures StreamOk(rx, e, Wire(tx, random, e, msgs).0)
  {
    hide ParseOne, AllSendable;
    WireParses(tx, rx, random, e, msgs);
    EmptyIncomplete(rx, Wire(tx, random, e, msgs).1);
  }

  /** What a writer has put on the wire, at every moment, is a stream the reader can make sense of. */
  lemma WriterStreamOk(w: Writer, r: Reader)
    requires w.Valid() && !w.torn && !w.broken
    requires Paired(w.mode, r.mode) && w.origin == r.origin && AllSendable(w.mode, w.randomPadding, w.msgs)
    ensures StreamOk(r.mode, r.origin, w.wire)
  {
    hide ParseOne, AllSendable, Wire;
    SenderStreamOk(w.mode, r.mode, w.randomPadding, w.origin, w.msgs);
    var framed := Wire(w.mode, w.randomPadding, w.origin, w.msgs).0;
    assert framed == w.wire + framed[|w.wire|..];
    StreamOkPrefix(r.mode, r.origin, w.wire, framed[|w.wire|..]);
  }

  /** Even while a packet is half sent or half received, what has been delivered is a prefix of what
      was written, in order, confirmed. */
  lemma DeliveredIsWritten(w: Writer, r: Reader)
    requires w.Valid() && !w.torn && !w.broken
    requires r.Valid() && !r.broken
    requires Paired(w.mode, r.mode) && w.origin == r.origin && AllSendable(w.mode, w.randomPadding, w.msgs)
    requires r.sock.received <= w.wire
    ensures r.delivered <= Intended(w.msgs)
  {
    OnlyWhatWasSent(r, w.mode, w.randomPadding, w.msgs);
  }

  /** Once nothing waits on either side every payload has been delivered, each confirmed, and the
      two ends hold the same cipher context and sequence number. */
  lemma WrittenIsDelivered(w: Writer, r: Reader)
    requires w.Valid() && !w.torn && !w.broken && w.outbuf == null
    requires r.Valid() && !r.broken && r.AllDelivered()
    requires Paired(w.mode, r.mode) && w.origin == r.origin && AllSendable(w.mode, w.randomPadding, w.msgs)
    requires r.sock.received == w.wire
    ensures r.delivered == Intended(w.msgs) && r.begun == End(w.cs, w.seqno)
  {
    EverythingArrives(r, w.mode, w.randomPadding, w.msgs);
  }

  /** One call of `libssh2_packet_read` on a sender's stream. */
  method ReadOn(r: Reader, ghost tx: Mode, ghost random: bool, ghost msgs: seq<Message>) returns (rc: ReadResult)
    requires r.Valid() && !r.broken && r.adds == [] && Lasting(r.sock.script)
    requires Paired(tx, r.mode) && AllSendable(tx, random, msgs) && r.Stream() == Wire(tx, random, r.origin, msgs).0
    requires StreamOk(r.mode, r.origin, r.Stream())
    modifies r, r.buf, r.payload, r.sock
    ensures r.Valid() && !r.broken && r.adds == [] && Lasting(r.sock.script) && r.Stream() == old(r.Stream())
    ensures r.payload == old(r.payload) || fresh(r.payload)
    ensures if rc.Type? then |r.taken| > |old(r.taken)|
            else rc == ReadResult.Eagain && r.AllDelivered() && (r.sock.Weight() < old(r.sock.Weight()) || r.sock.script == [])
    ensures r.sock.Weight() <= old(r.sock.Weight()) && |r.taken| >= |old(r.taken)|
  {
    hide ParseOne, ParseAll, AllSendable, Wire, Lasting;
    ghost var taken, delivered, begun, stream := r.taken, r.delivered, r.begun, r.Stream();
    r.TakenFirst();
    rc := r.PacketRead();
    if r.broken {
      ghost var more := r.sock.received[|taken|..];
      assert stream == taken + (more + Coming(r.sock.script));
      NextIsConfirmed(r.mode, r.origin, tx, random, msgs, taken, more, Coming(r.sock.script), delivered, begun);
    }
  }

  /** Every cut of the stream and every pattern of EAGAIN: over a connection that lasts, with no
      objections from `libssh2_packet_add`, reading never fails, and called again after each EAGAIN until
      the network has nothing more it ends with every payload delivered. */
  method ReadToTheEnd(r: Reader, ghost tx: Mode, ghost random: bool, ghost msgs: seq<Message>)
    requires r.Valid() && !r.broken && r.adds == [] && Lasting(r.sock.script)
    requires Paired(tx, r.mode) && AllSendable(tx, random, msgs) && r.Stream() == Wire(tx, random, r.origin, msgs).0
    modifies r, r.buf, r.payload, r.sock
    ensures r.Valid() && !r.broken && r.sock.script == []
    ensures r.delivered == Intended(msgs) && r.begun == Wire(tx, random, r.origin, msgs).1
  {
    hide ParseOne, ParseAll, AllSendable, Wire, Accounted, Agrees, Lasting;
    SenderStreamOk(tx, r.mode, random, r.origin, msgs);
    while true
      invariant r.Valid() && !r.broken && r.adds == [] && Lasting(r.sock.script)
      invariant r.Stream() == Wire(tx, random, r.origin, msgs).0 && StreamOk(r.mode, r.origin, r.Stream())
      invariant r.payload == old(r.payload) || fresh(r.payload)
      decreases |r.Stream()| - |r.taken| + r.sock.Weight()
    {
      var rc := ReadOn(r, tx, random, msgs);
      r.TakenReceived();
      if rc == ReadResult.Eagain && r.sock.script == [] {
        assert r.sock.received + [] == r.sock.received;
        EverythingArrives(r, tx, random, msgs);
        return;
      }
    }
  }
}
