/** What is refunded for packets against the payload they brought. */
module RefundSizes {
  import opened Bytes
  import opened Brigade
  import opened Flow
  import opened ByteQueue
  import opened ChannelWorld
  import opened ChannelFlush

  /** The payload of the reader's packets, and how many of them are extended data. */
  function PayloadOf(r: Consumer, ps: seq<Pkt>): int {
    if ps == [] then 0 else (if Matches(r, ps[0].data) then |ps[0].data| - HeadOf(ps[0].data) else 0) + PayloadOf(r, ps[1..])
  }

  function Extended(r: Consumer, ps: seq<Pkt>): nat {
    if ps == [] then 0 else
    (if Matches(r, ps[0].data) && ps[0].data[0] == CHANNEL_EXTENDED_DATA then 1 else 0) + Extended(r, ps[1..])
  }

  /** The refund is the payload, and four bytes more for every packet of extended data that the
      standard stream merges in; it is exact just when there is none. */
  lemma {:induction false} ChargeIsPayload(r: Consumer, ps: seq<Pkt>)
    ensures Charge(r, ps) == PayloadOf(r, ps) + if r.stream == 0 then 4 * Extended(r, ps) else 0
    ensures r.stream == 0 && r.mode != Merge ==> Extended(r, ps) == 0
  {
    if ps != [] {
      ChargeIsPayload(r, ps[1..]);
    }
  }

  /** One byte of merged extended data is refunded as five. */
  lemma MergedRefund()
    ensures var r := Consumer(0, 0, Merge);
            var p := Pkt([CHANNEL_EXTENDED_DATA, 0, 0, 0, 0, 0, 0, 0, 1, 0, 0, 0, 1, 7], 13);
            PayloadOf(r, [p]) == 1 && Charge(r, [p]) == 5
  {
    var r := Consumer(0, 0, Merge);
    var p := Pkt([CHANNEL_EXTENDED_DATA, 0, 0, 0, 0, 0, 0, 0, 1, 0, 0, 0, 1, 7], 13);
    assert p.data[1..5] == [0, 0, 0, 0];
    assert [p][1..] == [];
    ChargeIsPayload(r, [p]);
  }

  /** Payload bytes that came in with the selected packets, and how many of these are standard data. */
  function Payload(id: u32, streamId: int, ps: seq<Pkt>): nat {
    if ps == [] then 0 else
    var p := ps[|ps| - 1];
    Payload(id, streamId, ps[..|ps| - 1]) +
    if Selected(id, streamId, p.data) && IsData(p.data) then |p.data| - HeadOf(p.data) else 0
  }

  function Standard(id: u32, streamId: int, ps: seq<Pkt>): nat {
    if ps == [] then 0 else
    var p := ps[|ps| - 1];
    Standard(id, streamId, ps[..|ps| - 1]) +
    if Selected(id, streamId, p.data) && p.data[0] == CHANNEL_DATA then 1 else 0
  }

  /** A flush gives back four bytes too few for every packet of standard data. */
  lemma {:induction false} FlushRefundShort(id: u32, streamId: int, ps: seq<Pkt>)
    requires forall p <- ps :: Selected(id, streamId, p.data) ==> IsData(p.data)
    ensures (Owed(id, streamId, ps) + 4 * Standard(id, streamId, ps)) % TWO32 == Payload(id, streamId, ps) % TWO32
  {
    if ps != [] {
      var n := |ps| - 1;
      var p := ps[n];
      FlushRefundShort(id, streamId, ps[..n]);
      if Selected(id, streamId, p.data) {
        var std := if p.data[0] == CHANNEL_DATA then 1 else 0;
        ModShift(Owed(id, streamId, ps[..n]), 4 * Standard(id, streamId, ps[..n]), Payload(id, streamId, ps[..n]),
                 |p.data| - 13, 4 * std);
      }
    }
  }

  lemma ModShift(refund: nat, short: nat, payload: nat, add: int, extra: nat)
    requires (refund + short) % TWO32 == payload % TWO32
    requires payload + add + extra >= 0
    ensures ((refund + add) % TWO32 + short + extra) % TWO32 == (payload + add + extra) % TWO32
  {
    var q := (refund + add) / TWO32;
    assert (refund + add) % TWO32 == refund + add - q * TWO32;
    var k := (refund + short) / TWO32 - payload / TWO32;
    assert refund + short == payload + k * TWO32;
    ModAdd(payload + add + extra, k - q);
  }

  lemma ModAdd(a: int, k: int)
    ensures (a + k * TWO32) % TWO32 == a % TWO32
  {
  }

  /** So a flush is exact just when the packets of standard data it takes number a multiple of 2^30. */
  lemma FlushRefundExact(id: u32, streamId: int, ps: seq<Pkt>)
    requires forall p <- ps :: Selected(id, streamId, p.data) ==> IsData(p.data)
    ensures Owed(id, streamId, ps) == Payload(id, streamId, ps) % TWO32 <==>
              Standard(id, streamId, ps) % 0x4000_0000 == 0
  {
    FlushRefundShort(id, streamId, ps);
    var r, s := Owed(id, streamId, ps), Standard(id, streamId, ps);
    var q := s / 0x4000_0000;
    assert 4 * s == 4 * (s % 0x4000_0000) + q * TWO32;
    ModAdd(r + 4 * (s % 0x4000_0000), q);
  }

  /** One byte of standard data, flushed, gives back three less than nothing. */
  lemma FlushedByte()
    ensures var p := Pkt([CHANNEL_DATA, 0, 0, 0, 0, 0, 0, 0, 1, 7], 9);
            Payload(0, 0, [p]) == 1 && Owed(0, 0, [p]) == TWO32 - 3
  {
    var p := Pkt([CHANNEL_DATA, 0, 0, 0, 0, 0, 0, 0, 1, 7], 9);
    assert p.data[1..5] == [0, 0, 0, 0];
    assert [p][..0] == [];
    assert Selected(0, 0, p.data);
  }
}
