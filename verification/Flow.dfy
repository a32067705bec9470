/** One receiver's flow-control state and the decisions taken on it: what a data message does
    (packet.c:650-723) and what a window adjustment does (channel.c:1375-1430). */
module Flow {
  import opened Bytes
  import opened Brigade

  const MINADJUST := 1024

  /** LIBSSH2_CHANNEL_EXTENDED_DATA_NORMAL, _IGNORE and _MERGE. */
  datatype ExtMode = Normal | Ignore | Merge

  /** `remote.window_size`, `adjust_queue`, `remote.packet_size` and the mode; `underway` is the
      amount in a window-adjust message whose write was interrupted. */
  datatype State = State(window: u32, queue: u32, packetSize: u32, mode: ExtMode, underway: Option<u32>)

  function Add32(a: u32, b: u32): u32 {
    (a + b) % TWO32
  }

  function Sub32(a: u32, b: u32): u32 {
    (a - b) % TWO32
  }

  /** What becomes of `n` bytes of data: thrown away in IGNORE mode (and to be refunded), thrown
      away because the window is full, or kept, possibly truncated. */
  datatype Verdict = Ignored | Dropped | Kept(n: u32)

  function Receive(f: State, n: u32, ext: bool): (State, Verdict) {
    if f.mode == Ignore && ext then (f, Ignored) else
    var n1 := if f.packetSize < n then f.packetSize else n;
    if f.window == 0 then (f, Dropped)
    else if n1 > f.window then (f, Kept(f.window))
    else (f.(window := f.window - n1), Kept(n1))
  }

  datatype WriteOutcome = Sent | Again | Failed

  /** The answer the next write gets; a script that has run out keeps saying EAGAIN. */
  function NextSend(sends: seq<WriteOutcome>): WriteOutcome {
    if sends == [] then Again else sends[0]
  }

  /** The state after an adjustment, the amount announced to the peer if a message went out, and
      whether the call must be repeated. */
  datatype Adjusted = Adjusted(state: State, announced: Option<u32>, again: bool)

  function Adjust(f: State, a: u32, force: bool, w: WriteOutcome): Adjusted {
    if f.underway.Some? then Transmit(f, f.underway.value, a, w)
    else if !force && Add32(a, f.queue) < MINADJUST then
      Adjusted(f.(queue := Add32(f.queue, a)), None, false)
    else if a == 0 && f.queue == 0 then Adjusted(f, None, false)
    else Transmit(f.(queue := 0), Add32(a, f.queue), Add32(a, f.queue), w)
  }

  /** Whether an adjustment writes a message now, or goes on writing one. */
  predicate Writes(f: State, a: u32, force: bool) {
    f.underway.Some? || ((force || Add32(a, f.queue) >= MINADJUST) && !(a == 0 && f.queue == 0))
  }

  /** -37, as the number of 32 bits it is compared as. */
  const EAGAIN_CODE: u32 := 0xFFFF_FFDB

  /** What `libssh2_channel_receive_window_adjust` returns: the new window, through the same number as
      EAGAIN. */
  function ReturnCode(a: Adjusted): u32 {
    if a.again then EAGAIN_CODE else a.state.window
  }

  /** A message announcing `amount` is written; if that succeeds the window grows by `credit`. */
  function Transmit(f: State, amount: u32, credit: u32, w: WriteOutcome): Adjusted {
    match w
    case Again => Adjusted(f.(underway := Some(amount)), None, true)
    case Failed => Adjusted(f.(underway := None, queue := credit), None, false)
    case Sent => Adjusted(f.(underway := None, window := Add32(f.window, credit)), Some(amount), false)
  }
}
