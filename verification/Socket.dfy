/** A non-blocking socket: what recv and send answer is fixed in advance by a script, so a
    statement about every script is one about every fragmentation. */
module Socket {
  import opened Bytes

  /** `Data` holds bytes that arrive together; one `recv` may take only a part of them.
      `Closed` stands for a return of zero and for every error but EAGAIN. */
  datatype Event = Data(bytes: seq<byte>) | WouldBlock | Closed

  /** All bytes a script brings, however they are cut. */
  function Coming(script: seq<Event>): seq<byte> {
    if script == [] then [] else
    (if script[0].Data? then script[0].bytes else []) + Coming(script[1..])
  }

  /** The connection is never closed and never fails. */
  predicate Lasting(script: seq<Event>) {
    forall i | 0 <= i < |script| :: script[i].WouldBlock? || (script[i].Data? && script[i].bytes != [])
  }

  /** The bytes that come before the connection is closed or fails, if it does. */
  function BeforeLoss(script: seq<Event>): seq<byte> {
    if script == [] || script[0] == Closed || script[0] == Data([]) then [] else
    (if script[0].Data? then script[0].bytes else []) + BeforeLoss(script[1..])
  }

  datatype RecvResult = Bytes(n: nat) | Again | Lost

  /** What is left when `n` of the bytes next to come have been taken. */
  function Rest(script: seq<Event>, n: nat): seq<Event>
    requires script != [] && script[0].Data? && n <= |script[0].bytes|
  {
    (if n == |script[0].bytes| then [] else [Data(script[0].bytes[n..])]) + script[1..]
  }

  lemma Regroup(a: seq<byte>, b: seq<byte>, n: nat, c: seq<byte>)
    requires n <= |b|
    ensures a + b[..n] + (b[n..] + c) == a + (b + c)
  {
    assert b == b[..n] + b[n..];
  }

  lemma RestComes(received: seq<byte>, script: seq<Event>, n: nat)
    requires script != [] && script[0].Data? && 0 < n <= |script[0].bytes|
    ensures var bytes, rest := script[0].bytes, Rest(script, n);
            && received + bytes[..n] + Coming(rest) == received + Coming(script)
            && received + bytes[..n] + BeforeLoss(rest) == received + BeforeLoss(script)
            && |rest| + |Coming(rest)| < |script| + |Coming(script)|
            && (Lasting(script) ==> Lasting(rest))
  {
    var bytes := script[0].bytes;
    Regroup(received, bytes, n, Coming(script[1..]));
    Regroup(received, bytes, n, BeforeLoss(script[1..]));
    if n == |bytes| {
      assert Rest(script, n) == script[1..] && bytes[n..] == [];
    } else {
      assert Rest(script, n)[1..] == script[1..];
    }
  }

  class Inbound {
    var script: seq<Event>
    ghost var received: seq<byte>
    /** A recv has failed. */
    ghost var lost: bool

    constructor (script: seq<Event>)
      ensures this.script == script && received == [] && !lost
    {
      this.script := script;
      received, lost := [], false;
    }

    /** How much the socket still has to say. */
    ghost function Weight(): nat
      reads this
    {
      |script| + |Coming(script)|
    }

    /** What has come and will come before the connection is lost. */
    ghost function Due(): seq<byte>
      reads this
    {
      received + BeforeLoss(script)
    }

    /** With `due` still to be received in all, the connection was not lost before that was. */
    ghost predicate Owes(due: seq<byte>)
      reads this
    {
      if lost then received == due else Due() == due
    }

    /** `recv(fd, buf + at, max)`. */
    method Recv(buf: array<byte>, at: nat, max: nat) returns (r: RecvResult)
      requires at + max <= buf.Length && max > 0
      modifies this, buf
      ensures received + Coming(script) == old(received + Coming(script))
      ensures match r
              case Bytes(n) =>
                0 < n <= max && received == old(received) + buf[at..at + n] && Weight() < old(Weight())
              case Again => received == old(received) && (old(script) != [] ==> Weight() < old(Weight()))
              case Lost => received == old(received) && Weight() < old(Weight())
      ensures lost == (old(lost) || r.Lost?)
      ensures r.Lost? <==> old(script) != [] && (old(script)[0] == Closed || old(script)[0] == Data([]))
      ensures !old(lost) ==> Owes(old(Due()))
      ensures old(Lasting(script)) ==> Lasting(script)
      ensures r.Again? ==> script == (if old(script) == [] then [] else old(script)[1..])
      ensures buf[..at] == old(buf[..at])
      ensures forall k | at <= k < buf.Length && (r.Bytes? ==> at + r.n <= k) :: buf[k] == old(buf[k])
    {
      hide BeforeLoss, Coming, Rest, Lasting;
      NothingTaken(script);
      if script == [] {
        return Again;
      }
      match script[0]
      case WouldBlock =>
        script := script[1..];
        return Again;
      case Closed =>
        script := script[1..];
        lost := true;
        return Lost;
      case Data(bytes) =>
        var n := if |bytes| < max then |bytes| else max;
        if n == 0 {
          script := script[1..];
          lost := true;
          return Lost;
        }
        RestComes(received, script, n);
        script := Rest(script, n);
        received := received + bytes[..n];
        forall k | 0 <= k < n {
          buf[at + k] := bytes[k];
        }
        assert buf[at..at + n] == bytes[..n];
        return Bytes(n);
    }
  }

  lemma NothingTaken(script: seq<Event>)
    ensures script != [] && (script[0] == Closed || script[0] == Data([])) ==> BeforeLoss(script) == []
    ensures script != [] && (script[0] == Closed || script[0] == Data([]) || script[0] == WouldBlock) ==>
              Coming(script[1..]) == Coming(script)
    ensures script != [] && script[0] == WouldBlock ==> BeforeLoss(script[1..]) == BeforeLoss(script)
    ensures script != [] && Lasting(script) ==> Lasting(script[1..]) && script[0] != Closed && script[0] != Data([])
  {
    if script != [] && script[0] == Data([]) {
      assert [] + Coming(script[1..]) == Coming(script[1..]);
    }
  }
}
