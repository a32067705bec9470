# libssh2 1.0: transport, channels, key exchange, SFTP

CocoaGit carries the SSH client library libssh2 1.0 under `Source/libssh2`. This project models the
parts of it that decide what reaches an application, and proves properties of that model:

- **The binary packet protocol** (`transport.c`; sections 6, 6.1, 6.3 and 6.4 of RFC 4253). The writer
  frames, pads, authenticates and encrypts; the reader reassembles packets through a 4096-byte window,
  in whatever pieces the network delivers, and can be interrupted anywhere. The cipher is an abstract
  stateful transformation of blocks, the MAC an abstract function of sequence number and bytes.
  (`Bytes`, `Cipher`, `TransportSpec`, `PartialPacket`, `Socket`, `PacketReader`, `PacketWriter`, `Transport`)
- **Channels** (`channel.c`, `packet.c`; section 5.2 of RFC 4254). One doubly linked list of packets is
  shared by all channels. Reading, writing, flushing, window adjustment and the handling of incoming
  messages are methods on it. What a session does is a list of deeds on a value: packets read, windows
  adjusted, messages written (`ChannelWorld`); each method leaves exactly what its deeds make of the
  session, so no packet, credit or refund can be lost or made up, and theorems over whole runs are about
  those deeds (`ReadRuns`, `RunWindows`, `EndOfFile`, `RefundSizes`). The flow-control decisions are two
  functions, used both by the methods and by a two-party model that runs over every interleaving
  (`Flow`, `FlowControl`). What messages bring is stated field by field, as the peer lays them out
  (`PeerMessages`), and the runs are about those fields; what a write sends at one end, a reader at the other
  end finds (`WriteToRead`). (Also `Brigade`, `ByteQueue`, `Channels`, `ChannelRead`, `ChannelFlush`, `ChannelWrite`)
- **Key exchange** (`kex.c`; sections 7.1 and 7.2 of RFC 4253). Writing and taking apart KEXINIT, the
  search in name-lists, agreement on methods, the expansion of keys, and the flags that keep reading and
  key exchange, which call each other, from nesting. (`NameList`, `KexInit`, `KexAgree`, `KeyExpand`, `KexNesting`)
- **Codecs and resumable reads** (`misc.c`, `sftp.c`): base64, attribute blocks, SFTP framing, and a file
  read in pieces. (`Base64`, `SftpAttrs`, `SftpFrame`, `SftpRead`)

Code that works by changing things step by step is modelled by methods on classes, arrays and a linked
list; each is proved against a specification function or predicate over values, and what the library
promises is proved about those as lemmas. An EAGAIN is an answer like any other: the network, the
transport layer and the peer are scripts of answers, quantified over, so every theorem holds for every
pattern of interruptions unless it says otherwise. What goes to the peer, comes from it or ends in the
caller's buffer is stated in bytes, numbers and fields, not only through the functions that compute it:
layouts of messages, sequence numbers, MACs, keys, what a method agreed on can do. Contracts say which answers of a script were used up
(`Scripts`), so that a call may fail, or give up for now, only if the last of them is a reason to.
`unsigned long` has 32 bits.

Where the code does not do what it is meant to, the model does what the code does, the exact condition is
proved, and an input that meets it is shown:

- a packet sent in part is taken for sent when its rest is resumed and the send takes less than that rest:
  the stream is torn just then (`PacketWriter.Writer.SendExisting`, `PacketWriter.TornPacket`);
- a window adjustment that was interrupted credits the amount of the call that resumes it instead of the one
  that goes out: whoever resumes it, the books stay closed if and only if the two are the same
  (`FlowControl.ResumedAdjustment`). For the call itself repeated that is when nothing was queued
  (`FlowControl.InterruptedAdjustment`), but the refund of other data may finish it as well. Runs of both
  kinds in which a rightful message is then cut short or dropped are `FlowControl.OverrunAfterInterruption`
  and `FlowControl.OverrunByAnother`;
- a channel read interrupted in a refund goes on at a packet it has only remembered: it may be repeated just
  when that packet has not been taken out meanwhile (`ByteQueue.PlaceKeptIff`); additions, reads and flushes
  it is not for do no harm (`ByteQueue.PlaceKept`, `ChannelFlush.PlaceKeptByFlush`), a read of the channel
  it is for does (`ChannelRead.PlaceLost`);
- a channel write that is interrupted after its first message starts over at the beginning of the buffer:
  the peer gets the buffer just when no call was interrupted after it had sent something
  (`ChannelWrite.WrittenOnceIff`, `ChannelWrite.WrittenTwice`);
- reading merged extended data refunds four bytes too many a packet (`RefundSizes.ChargeIsPayload`,
  `RefundSizes.MergedRefund`), flushing standard data four too few (`RefundSizes.FlushRefundShort`,
  `RefundSizes.FlushRefundExact`, `RefundSizes.FlushedByte`);
- `libssh2_channel_nextid` gives a number no live channel has just when all live numbers are below the
  session's counter (`Channels.Session.NextId`), which they are until it wraps around
  (`Channels.NumbersWrap`);
- an adjustment that leaves a receive window of 2^32 - 37 is taken for interrupted, just then: it is
  repeated, and the peer is promised the amount twice (`ChannelWorld.PromisedTwice`). A channel opened with
  that window and read is a case (`ChannelRead.GivenTwice`);
- without preferences the search for a host key runs off its table just when no method there is common and
  suits (`KexAgree.FirstFittingInTable`, `KexAgree.TableOverrun`); though both sides know a choice, nothing is
  agreed on just when a common choice before it is one the client does not have
  (`KexAgree.UnknownChoiceRefuses`, `KexAgree.UnknownBeforeKnown`);
- a key exchange can succeed with methods that were refused: just when both were set by a negotiation that
  failed, and this is no re-exchange (`KexNesting.KexSession.KexExchange`, `KexNesting.RefusedThenDone`);
- an SFTP packet is lost, besides when the channel breaks, just when its length is over the limit or comes
  in pieces (`SftpFrame.Framer.PacketRead`, `SftpFrame.SplitLength`); so a file read fails, and its reply is
  lost, on a connection that holds, when the length of the reply comes in pieces (`SftpRead.Sftp.Await`,
  `SftpRead.ReplyLost`).

## Model

| member | source | states |
|---|---|---|
| `Bytes.U32RoundTrip` | Source/libssh2/src/misc.c:46-80 | a word stored most significant byte first is read back, whatever follows it |
| `Bytes.U32Injective` | Source/libssh2/src/misc.c:46-80 | four bytes read as a word and stored again are the same bytes |
| `Bytes.U32Order` | Source/libssh2/src/misc.c:46-80 | where two words first differ decides which is greater: the most significant byte comes first |
| `Bytes.U64RoundTrip` | Source/libssh2/src/misc.c:57-98 | the same for the 64-bit form made of two words |
| `Bytes.U64Order` | Source/libssh2/src/misc.c:57-98 | the same for eight bytes |
| `Cipher.BlocksExtend` | Source/libssh2/src/transport.c:98-128 | block by block: each is what the cipher makes of it in the context the blocks before it have left |
| `TransportSpec.ParseOneStable` | Source/libssh2/src/transport.c:317-560 | whatever was decided about the packet at the head of a stream stands when more bytes arrive |
| `TransportSpec.ParseAllConcat` | Source/libssh2/src/transport.c:317-588 | parsing a stream after a fully parsed prefix goes on from the cipher state and number reached there: no packet is lost, repeated or reordered by the cut |
| `TransportSpec.PaddingFits` | Source/libssh2/src/transport.c:711-737 | for every length and block size the frame fills whole blocks, padding is 4 to 255 bytes for every random seed, at most block size + 3 without random padding, and then the least possible |
| `TransportSpec.RandomPadding` | Source/libssh2/src/transport.c:711-737 | with random padding the payload's first byte, modulo the number of further blocks the length byte leaves room for, says how many are added to the least padding |
| `TransportSpec.PlaintextFields` | Source/libssh2/src/transport.c:746-760 | length, padding length, payload and padding stand where section 6 of RFC 4253 puts them |
| `TransportSpec.TagDecides` | Source/libssh2/src/transport.c:134-226 | a frame that ends in any MAC at all is read as its payload, confirmed just when that MAC is the hash of the sequence number and the plaintext; one of more than 40000 bytes is refused as too big |
| `TransportSpec.FrameParses` | Source/libssh2/src/transport.c:661-812 | one frame, whatever follows it, is parsed into its payload with the MAC confirmed, using exactly its bytes and leaving both ends in the same state |
| `TransportSpec.WireParses` | Source/libssh2/src/transport.c:661-812 | a whole stream of frames parses into exactly its payloads in order, all confirmed, nothing left over, both ends with equal cipher state and number |
| `TransportSpec.WireNumber` | Source/libssh2/src/transport.c:784 | the sender's number has moved on by the number of messages, modulo 2^32 |
| `TransportSpec.ParseNumber` | Source/libssh2/src/transport.c:166 | the reader's number has moved on by the number of packets, modulo 2^32, whatever they are |
| `TransportSpec.WireAt` | Source/libssh2/src/transport.c:746-784 | in its place in the stream every message is the encrypted plaintext packet, and behind it the hash of its own number, counted from the start, and of that plaintext |
| `TransportSpec.WireSnoc` | Source/libssh2/src/transport.c:711-784 | a stream grows at its end by the frame of the next message under the state reached |
| `TransportSpec.StreamOkPrefix` | Source/libssh2/src/transport.c:317-560 | what a reader can make sense of it can make sense of in part |
| `PartialPacket.MidComplete` | Source/libssh2/src/transport.c:134-226 | a packet with all its bytes in, decrypted piece by piece, is what the parser finds in those bytes |
| `Socket.Inbound.Recv` | Source/libssh2/src/transport.c:360-397 | whatever part of the next bytes the network gives, received and still to come stay the same stream; it is lost only when all that came before has been received |
| `PacketReader.Reader.Decrypt` | Source/libssh2/src/transport.c:98-128 | decrypting in place and copying gives the transformation of the whole range, block by block, and never leaves it |
| `PacketReader.Reader.Refill` | Source/libssh2/src/transport.c:343-401 | compacting the window and receiving keep every byte accounted for; indices stay within 4096 bytes |
| `PacketReader.Reader.Fetch` | Source/libssh2/src/transport.c:525-555 | bytes taken from the window, decrypted or as they are, are the next ones, in order |
| `PacketReader.Reader.StartPacket` | Source/libssh2/src/transport.c:436-479 | lengths are taken from the first block; a packet over the limit is refused, else its buffer holds the rest of that block |
| `PacketReader.Reader.TakeHead` | Source/libssh2/src/transport.c:406-483 | starting a packet keeps the reassembler's invariant, or the parser calls it too big |
| `PacketReader.Reader.Absorb` | Source/libssh2/src/transport.c:485-555 | as much as can be used is taken; the undecrypted rest stays whole blocks and MAC bytes are never decrypted |
| `PacketReader.Reader.CompareMac` | Source/libssh2/src/transport.c:142-164 | the verdict is the one over number, first block and body, bytes of the MAC excluded |
| `PacketReader.Reader.CheckPacket` | Source/libssh2/src/transport.c:134-185 | a complete packet is exactly what the parser finds in the raw bytes taken for it |
| `PacketReader.Reader.Offer` | Source/libssh2/src/transport.c:228-242 | the packet is handed over once if a type or EAGAIN with an idle state comes back, not at all if it must be offered again; it fails only on a packet that was rejected or whose MAC is wrong |
| `PacketReader.Reader.FullPacket` | Source/libssh2/src/transport.c:562-586 | re-entry after EAGAIN continues with the packet that waits; at most one packet is handed over; failure and EAGAIN have their causes in what `libssh2_packet_add` answers |
| `PacketReader.Reader.Collect` | Source/libssh2/src/transport.c:310-560 | reading up to a complete packet keeps the invariant; EAGAIN is answered only when no complete packet has been received, failure just when the socket is lost, which is not before all bytes that came before have been received and everything complete among them delivered |
| `PacketReader.Reader.PacketRead` | Source/libssh2/src/transport.c:259-591 | for every cut of the stream and every interruption the packets delivered are those of the whole-stream parser; on EAGAIN, and when the connection is lost, none that is complete is held back; it fails only if all bytes before the loss have been received, or the next packet is too big, rejected, or not authentic |
| `PacketReader.Reader.RequirePacket` | Source/libssh2/src/packet.c:1108-1139 | reading until a type arrives delivers at least one packet, of that type last; on EAGAIN everything complete has been delivered or put off by `libssh2_packet_add`, unless it is for a packet of type 0; it fails only on a lost connection or a refused packet |
| `PacketReader.NextIsConfirmed` | Source/libssh2/src/transport.c:259-591 | in a sender's stream the packet that comes next is never too big and always authentic |
| `PacketReader.OnlyWhatWasSent` | Source/libssh2/src/transport.c:259-591 | whatever prefix of a sender's stream has come in, what was delivered is a prefix of its payloads, each confirmed |
| `PacketReader.EverythingArrives` | Source/libssh2/src/transport.c:259-591 | when the whole stream is in, all payloads have been delivered and the state is the sender's |
| `PacketWriter.Writer.SendExisting` | Source/libssh2/src/transport.c:595-646 | a waiting packet is resumed only for the same data; what goes out, what is answered and what waits follow from what the send takes; the stream is torn just when it takes less than the rest |
| `PacketWriter.TornPacket` | Source/libssh2/src/transport.c:595-646 | two sends that leave 13 of the 16 bytes of a packet on the wire while the call reports success |
| `PacketWriter.Writer.EncryptInPlace` | Source/libssh2/src/transport.c:776-781 | the body becomes the cipher's transformation of it, the MAC behind it is untouched |
| `PacketWriter.Writer.BuildPlain` | Source/libssh2/src/transport.c:746-772 | the buffer holds the plaintext packet, and behind it its MAC |
| `PacketWriter.Writer.FramePacket` | Source/libssh2/src/transport.c:711-784 | the buffer holds exactly the frame of the message and ends in the hash of the number before and the plaintext; the number moves on by one, modulo 2^32 |
| `PacketWriter.Writer.PacketWrite` | Source/libssh2/src/transport.c:661-812 | each new message is appended to the stream once, whatever EAGAINs occur, under its own number, which moves on by one and goes into its MAC, and stays when a packet is resumed; answer, bytes sent and bytes waiting follow from what the send takes; another call while one waits is refused |
| `Transport.SenderStreamOk` | Source/libssh2/src/transport.c:259-812 | a sender's stream is one the reader can make sense of |
| `Transport.WriterStreamOk` | Source/libssh2/src/transport.c:259-812 | so is what a writer has put on the wire, at every moment, also with a packet half sent |
| `Transport.DeliveredIsWritten` | Source/libssh2/src/transport.c:259-812 | at every moment, also with packets half sent or half received, what was delivered is a prefix of what was written |
| `Transport.WrittenIsDelivered` | Source/libssh2/src/transport.c:259-812 | when nothing waits, all payloads have been delivered in order, confirmed, and both ends agree on state and number |
| `Transport.ReadOn` | Source/libssh2/src/transport.c:259-591 | on a sender's stream, over a connection that lasts, a call delivers a packet or answers EAGAIN with nothing held back; it never fails |
| `Transport.ReadToTheEnd` | Source/libssh2/src/transport.c:259-591 | for every cut of the stream and every pattern of EAGAIN, repeated calls end with all payloads delivered and the sender's state |
| `Brigade.List.Append` | Source/libssh2/src/packet.c:893-905 | the list stays a well-formed doubly linked list with the packet at its end |
| `Brigade.List.Unlink` | Source/libssh2/src/channel.c:1612-1623 | exactly this packet leaves, order and links of the others are kept |
| `Brigade.List.Ask` | Source/libssh2/src/packet.c:964-1018 | the first match is taken out and nothing else moves; none is found just when there is none |
| `Brigade.List.AskAny` | Source/libssh2/src/packet.c:1028-1056 | the first of the types that has a match decides |
| `Brigade.AskedFor` | Source/libssh2/src/packet.c:964-1018 | asked by type and the four bytes behind it, a packet is taken just when it is of that type and that channel number; asked by type only, just when it is of that type |
| `FlowControl.StepBalanced` | Source/libssh2/src/channel.c:1376-1430 | every step of either party keeps the window accounted for between sender, receiver, data and adjustments in flight |
| `FlowControl.RunBalanced` | Source/libssh2/src/channel.c:1376-1430 | the same over every run |
| `FlowControl.OverrunNeedsExcess` | Source/libssh2/src/packet.c:673-723 | data is cut short or dropped only if the peer was promised more than the receiver's window |
| `FlowControl.StepExact` | Source/libssh2/src/channel.c:1382-1427 | opening window = window + linked + queued + under way in every step, up to stated gifts, if an adjustment under way is resumed with its own amount |
| `FlowControl.PeerNeverOverruns` | Source/libssh2/src/packet.c:673-723 | over every interleaving and every pattern of interruptions in which adjustments are resumed with their own amount, a peer within its window never has data cut or dropped: it is kept whole and charged, except for extended data in IGNORE mode |
| `FlowControl.NoStarvation` | Source/libssh2/src/channel.c:1382-1427 | in plain reading, however adjustments are interrupted, conservation holds over every run, less than 1024 bytes are held back, and when all is read the sender may send all but 1023 bytes of the opening window |
| `FlowControl.CreditFits` | Source/libssh2/src/packet.c:851-871 | with the books closed, no credit pushes the sender's window past 2^32 - 1 |
| `FlowControl.FreshIsPlain` | Source/libssh2/src/channel.c:1376-1430 | a channel just opened meets the hypotheses of that |
| `FlowControl.ResumedAdjustment` | Source/libssh2/src/channel.c:1398-1426 | whoever resumes an adjustment, with whatever amount: the peer is promised the difference in excess, and the books stay closed if and only if there is none |
| `FlowControl.InterruptedAdjustment` | Source/libssh2/src/channel.c:1398-1426 | an adjustment interrupted and repeated by its caller leaves the peer with the queued amount in excess: exact just when none was queued |
| `FlowControl.OverrunAfterInterruption` | Source/libssh2/src/channel.c:1398-1426 | a run of a rightful peer in which 100 bytes of a message are then cut off |
| `FlowControl.OverrunByAnother` | Source/libssh2/src/channel.c:1398-1426 | a run with nothing queued, in which another refund finishes an interrupted one and a rightful message is then dropped |
| `ChannelWorld.PromisedTwice` | Source/libssh2/src/channel.c:1398-1429 | an adjustment that was sent is taken for interrupted just when the window it leaves is 2^32 - 37; repeated, it is promised to the peer a second time and the window grows by it twice |
| `PeerMessages.StandardArrives` | Source/libssh2/src/packet.c:614-725 | a CHANNEL_DATA message adds to the queue of every reader of its channel's standard data its bytes from the tenth on, cut to packet size and window, and to no other queue, whatever the mode for extended data |
| `PeerMessages.ExtendedArrives` | Source/libssh2/src/packet.c:614-725 | a CHANNEL_EXTENDED_DATA message adds its bytes from the fourteenth on, likewise cut, for readers of its stream and those that merge, and nothing in IGNORE mode |
| `ChannelWorld.ToldIgnored` | Source/libssh2/src/packet.c:650-674 | extended data in IGNORE mode is a window adjustment of the bytes behind its thirteenth, and the message is kept just as long as that is to be repeated |
| `PeerMessages.NothingArrives` | Source/libssh2/src/packet.c:614-951 | no other message brings data, nor one for an unknown channel |
| `PeerMessages.LinksBring` | Source/libssh2/src/packet.c:614-725 | what is linked is, for every reader, just the payload kept for it, and its refund the payload and four bytes more for extended data that is merged |
| `PeerMessages.EndHeard` | Source/libssh2/src/packet.c:727-805 | the bytes of EOF and CLOSE for a channel set its end mark, those of CLOSE also that it is closed, and change nothing else |
| `PeerMessages.CreditHeard` | Source/libssh2/src/packet.c:851-871 | the bytes of a window adjustment add its amount to the sending window of the channel and change nothing else |
| `PeerMessages.StatusHeard` | Source/libssh2/src/packet.c:753-779 | the bytes of an "exit-status" request set the exit status of the channel and change nothing else |
| `PeerMessages.TransportHeard` | Source/libssh2/src/packet.c:516-612 | DISCONNECT ends the connection; IGNORE and DEBUG go by |
| `PeerMessages.OtherLinked` | Source/libssh2/src/packet.c:878-905 | any other message is linked whole and changes nothing |
| `PeerMessages.UnknownHeard` | Source/libssh2/src/packet.c:614-871 | a message for a channel that is not known is dropped |
| `PeerMessages.NothingHeard` | Source/libssh2/src/transport.c:343-397 | with no message to be had nothing is linked and nothing changes, and the answer tells a broken connection from an empty one |
| `PeerMessages.DataMessageFields` | Source/libssh2/src/channel.c:1779-1834 | the data messages written have type, channel number, stream, length and payload where the peer reads them |
| `PeerMessages.AdjustMessageFields` | Source/libssh2/src/channel.c:1403-1405 | so do window adjustments |
| `PeerMessages.SaidIsHeard` | Source/libssh2/src/channel.c:1779-1867 | what one end writes in a message, within packet size and window of the other, is all at the end of the queue there, and both windows are down by its length |
| `PeerMessages.RefundIsHeard` | Source/libssh2/src/channel.c:1376-1430 | a refund of 1024 bytes or more, what was queued included, is announced at once; the receiver's window and, when the message is read, the sender's grow by it |
| `PeerMessages.RefundPutOff` | Source/libssh2/src/channel.c:1382-1392 | a smaller one is only queued, and nothing is sent |
| `PeerMessages.LinkedIsWhatCame` | Source/libssh2/src/packet.c:614-725 | over any course of deeds, what is linked is for every reader the concatenation of the payloads for it in the messages read |
| `ByteQueue.QueueConcat` | Source/libssh2/src/channel.c:1558-1648 | queue, other packets and refund of a list are those of its parts |
| `ByteQueue.ProgressPart` | Source/libssh2/src/channel.c:1589-1609 | handing out bytes of the first packet of a stream advances its queue by them and touches nothing else |
| `ByteQueue.ProgressUnlink` | Source/libssh2/src/channel.c:1611-1624 | unlinking a packet read to its end changes no queue and makes its refund due |
| `ByteQueue.ThinnedQueue` | Source/libssh2/src/channel.c:1558-1648 | taking packets out and reading them in part leaves a reader what it had with some bytes left out |
| `ByteQueue.PlaceKeptIff` | Source/libssh2/src/channel.c:1559-1648 | whatever is added or taken out, the place of an interrupted read is kept just as long as the packet it goes on with stays linked |
| `ByteQueue.PlaceKept` | Source/libssh2/src/channel.c:1559-1648 | a reader that packet is not for leaves the place as it is |
| `Channels.Session.Locate` | Source/libssh2/src/channel.c:87-98 | the channel with this number, null just when there is none |
| `Channels.Session.NextId` | Source/libssh2/src/channel.c:54-79 | the number is new just when all live ones are below the counter; then it is the counter and live numbers stay distinct and below it |
| `Channels.NumbersWrap` | Source/libssh2/src/channel.c:54-79 | the counter at its last value: the same number is given out twice |
| `Channels.Session.AddChannel` | Source/libssh2/src/channel.c:102-114 | a channel with such a number keeps all live numbers distinct and below the counter |
| `Channels.Session.ReceiveWindowAdjust` | Source/libssh2/src/channel.c:1376-1430 | the receiver's new state, the message sent and the number returned, where a window of 2^32 - 37 is the code of EAGAIN, are those of the flow-control function, in all its cases; a message is written just when it says so |
| `Channels.Session.Readjust` | Source/libssh2/src/channel.c:1376-1430 | as its callers see it: the session becomes what the refund makes of it, nothing else changes, and it is repeated just when the number returned is that code |
| `ChannelWrite.HeardBy` | Source/libssh2/src/packet.c:614-871 | reading a packet adds to a sending window exactly the credit that is in it for the channel, and sends nothing but window adjustments |
| `Channels.Session.IgnoreData` | Source/libssh2/src/packet.c:650-674 | ignored data is refunded as the flow-control function says and nothing is linked; EAGAIN leaves the refund to be repeated |
| `Channels.Session.KeepData` | Source/libssh2/src/packet.c:676-723 | data is cut to packet size and window, dropped without window, linked otherwise, the reader's place at its payload (see `PeerMessages.StandardArrives` and `PeerMessages.ExtendedArrives`), and the end-of-file mark is reset |
| `Channels.Session.AddData` | Source/libssh2/src/packet.c:614-725 | data for an unknown channel is thrown away, for a known one taken as above |
| `Channels.Session.AddEnd` | Source/libssh2/src/packet.c:727-805 | EOF and CLOSE mark their channel and no other |
| `Channels.Session.AddCredit` | Source/libssh2/src/packet.c:851-871 | an adjustment adds its amount to the sending window of its channel |
| `Channels.Session.AddExitStatus` | Source/libssh2/src/packet.c:753-779 | the exit status of its channel is stored |
| `Channels.Session.PacketAdd` | Source/libssh2/src/packet.c:441-951 | the session becomes what the message, or the repeated refund of the one put off, makes of it, and exactly the right packet is linked; DISCONNECT fails |
| `Channels.Session.PacketRead` | Source/libssh2/src/transport.c:259-591 | answer, packets linked, and everything the peer or the channels can notice are those of one step of the specification: the next message is taken and told, or the one put off goes on, or there is none |
| `ChannelRead.CopyOut` | Source/libssh2/src/channel.c:1589-1609 | as much as fits is copied and the packet is to be unlinked just when all of its rest did |
| `ChannelRead.Visit` | Source/libssh2/src/channel.c:1559-1624 | a packet is passed over, read in part, or read and unlinked, in step with the byte queue; no other leaves the list |
| `ChannelRead.RefundPacket` | Source/libssh2/src/channel.c:1631-1645 | the session becomes what a window adjustment by the packet's size less its header makes of it; interrupted just when that is taken for interrupted |
| `ChannelRead.Turn` | Source/libssh2/src/channel.c:1559-1645 | one turn: a packet read to its end is unlinked and its window adjusted by one deed of its size, any other turn does nothing to the session |
| `ChannelRead.Scan` | Source/libssh2/src/channel.c:1558-1648 | a scan hands out the next bytes of the queue; the session is what its deeds make of it: the interrupted refund repeated, then a refund for each packet it removes; not filling the buffer it leaves nothing of the stream |
| `ChannelRead.Drain` | Source/libssh2/src/channel.c:1500-1508 | packets are read, and nothing else is done; what they link is behind what was there; it fails only on a fatal packet, and ends only when the socket has nothing or one is put off |
| `ChannelRead.Laps` | Source/libssh2/src/channel.c:1531-1650 | the outer loop stays in step with the queue, its deeds are packets read and refunds, and it ends full, closed, interrupted in a refund, lost, or for want of packets, each for its reason |
| `ChannelRead.Eof` | Source/libssh2/src/channel.c:1923-1939 | yes just when the peer has ended the channel and none of its data, of type 94 or 95 with its number, is linked |
| `ChannelRead.ReadEx` | Source/libssh2/src/channel.c:1488-1670 | what is in the buffer is exactly what comes next in the stream's queue, also over an interruption, where what arrives is what the messages read link; session, channels and windows are what its deeds make of them: a new call first takes in what has come, then packets read and one refund of its size for each packet removed, the interrupted one repeated first; no packet of others leaves the list; 0 only of a closed channel; less than asked for only when nothing of the stream is left; an error only when a packet read fails, EAGAIN only for want of packets or with a refund under way |
| `ChannelRead.PlaceLost` | Source/libssh2/src/channel.c:1559-1648 | a run in which a read of another channel takes out the packet at which an interrupted read goes on |
| `ChannelRead.GivenTwice` | Source/libssh2/src/channel.c:1631-1645 | a channel opened with a window of 2^32 - 37: 1024 bytes read are given back twice, and its window is 987 |
| `ChannelFlush.FlushEx` | Source/libssh2/src/channel.c:1281-1353 | exactly the selected packets go, the answer is the number of unread bytes in them, and the session is what one window adjustment by the sum refunded makes of it; a repeated call only repeats that; EAGAIN just when it is taken for interrupted |
| `ChannelFlush.Sweep` | Source/libssh2/src/channel.c:1289-1334 | the loop over the list removes and counts just the selected packets |
| `ChannelFlush.PlaceKeptByFlush` | Source/libssh2/src/channel.c:1289-1334 | a flush that does not select the packet at which an interrupted read goes on leaves its place |
| `ReadRuns.ReadersApart` | Source/libssh2/src/channel.c:1573-1587 | a read does not disturb readers of other streams or channels |
| `ReadRuns.FlushQueue` | Source/libssh2/src/channel.c:1293-1306 | a flush empties the queues of the streams it is for and no other |
| `ReadRuns.Flushed` | Source/libssh2/src/channel.c:1293-1306 | -2 empties all queues of a channel, -1 those of extended data, 0 that of the standard data and any other number that stream's; no other is touched |
| `ReadRuns.ReadMore` | Source/libssh2/src/channel.c:1488-1670 | a read, new or repeated, continues any run of the session by one event |
| `ReadRuns.WriteMore` | Source/libssh2/src/channel.c:1733-1886 | so does a write |
| `ReadRuns.FlushMore` | Source/libssh2/src/channel.c:1281-1353 | and a flush |
| `ReadRuns.FirstInFirstOut` | Source/libssh2/src/channel.c:1488-1670 | over every run of reads, flushes, writes and other calls in which a flush takes all or none of the reader's packets and no other reader shares them, what a stream was handed, then what is left, is what was there and the payloads for it in the messages read, one after the other |
| `ReadRuns.NeverOutOfOrder` | Source/libssh2/src/channel.c:1488-1670 | over every run without exception a reader is handed bytes in the order in which messages brought them, none twice, and so it goes on |
| `ReadRuns.RefundedOnce` | Source/libssh2/src/channel.c:1631-1645 | over every such run the window adjustments that the reads ask for, those repeated not counted, and what is still linked make up exactly the payloads the messages brought, and four bytes for each packet merged |
| `ReadRuns.Interleaved` | Source/libssh2/src/channel.c:1488-1670 | an interrupted read may be repeated after a read of another channel for which the packet it goes on with is not, and the calls make a run |
| `RefundSizes.ChargeIsPayload` | Source/libssh2/src/channel.c:1633-1638 | the refund is the payload, and four bytes more for each packet of extended data merged |
| `RefundSizes.MergedRefund` | Source/libssh2/src/channel.c:1633-1638 | one byte of merged extended data, refunded as five |
| `RunWindows.AdjustReserve` | Source/libssh2/src/channel.c:1376-1430 | an adjustment adds its amount to window, queue and what is under way together, and nothing when it resumes one of that amount |
| `RunWindows.DeedKeeps` | Source/libssh2/src/channel.c:1376-1430 | so does every deed of a session, for the channel it is for, and a message takes from the window the payload it links |
| `RunWindows.WindowConserved` | Source/libssh2/src/channel.c:1382-1427 | over every run of a session in which a channel's packets are read without merging, by any readers, and interrupted adjustments are resumed as they were begun, window + queued + under way + payload still linked stay the same |
| `RunWindows.WindowComesBack` | Source/libssh2/src/channel.c:1382-1427 | so when everything is read and nothing is under way, all but 1023 bytes of the window have been given back, if no adjustment failed |
| `EndOfFile.EveryByte` | Source/libssh2/src/channel.c:1488-1670 | over every run, whoever reads and whatever is flushed, every byte messages brought a channel has been read, thrown away, or is still there |
| `EndOfFile.EndMark` | Source/libssh2/src/packet.c:614-805 | over every run the peer's mark stands just when an EOF or CLOSE has been read, or it stood before, and no data has been linked since |
| `EndOfFile.SaysSo` | Source/libssh2/src/channel.c:1923-1939 | the answer of `libssh2_channel_eof` at a moment of a run |
| `EndOfFile.EofComesLast` | Source/libssh2/src/channel.c:1923-1939 | over every run: when end of file is reported the peer has ended the channel, no data has come since, and every byte that came before has been read or flushed; a reader that shares its packets with none has got all of its bytes |
| `RefundSizes.FlushRefundShort` | Source/libssh2/src/channel.c:1316 | a flush gives back four bytes too few for each packet of standard data |
| `RefundSizes.FlushRefundExact` | Source/libssh2/src/channel.c:1316 | it is exact just when those packets number a multiple of 2^30 |
| `RefundSizes.FlushedByte` | Source/libssh2/src/channel.c:1316 | one byte of standard data, flushed, refunded as 2^32 - 3 |
| `ChannelWrite.AwaitWindow` | Source/libssh2/src/channel.c:1789-1811 | packets are read, only while there is no window, and nothing else is done: the session is what they make of it; it gives up only on a fatal packet, or without window when no packet can be had |
| `ChannelWrite.Cut` | Source/libssh2/src/channel.c:1813-1841 | the message carries the next bytes, as many as rest, window and packet size allow, behind type, channel number, stream and length, each in its place |
| `ChannelWrite.SendPart` | Source/libssh2/src/channel.c:1844-1869 | the session becomes what writing the message makes of it: sent, it is charged to the window and counted once; not sent, nothing changes |
| `ChannelWrite.WriteEx` | Source/libssh2/src/channel.c:1733-1886 | the session is what the call's deeds make of it: packets read while there is no window, and data messages of this channel and stream that carry what comes next in the plan of the call, each as much as packet size, window and rest allow; the window afterwards is the old one and the credit in the messages read less the bytes sent; it fails only on a closed channel, a failed send or a fatal packet, and leaves off only for want of window or in an interrupted send |
| `ChannelWrite.Accounts` | Source/libssh2/src/channel.c:1733-1886 | at every moment of a call the window is the old one and the credit heard less the bytes sent, and the messages handed over, adjustments apart, are exactly those that carry them |
| `ChannelWrite.SentWithinCredit` | Source/libssh2/src/channel.c:1789-1877 | up to every moment of a call no more went out than there was window at its start and credit since, over the integers, unless a message cut before has met a smaller window |
| `ChannelWrite.LastCallSendsAll` | Source/libssh2/src/channel.c:1774-1877 | the last of the calls sends as many bytes as the buffer has, whatever went out before |
| `ChannelWrite.WrittenOnceIff` | Source/libssh2/src/channel.c:1774-1877 | the peer gets exactly the buffer just when nothing had been sent before the last call |
| `ChannelWrite.WrittenTwice` | Source/libssh2/src/channel.c:1774-1877 | a write of three bytes that puts four on the wire |
| `WriteToRead.WriteIsRead` | Source/libssh2/src/channel.c:1733-1886 | the messages a call of write has sent, read at the other end within its packet size and window, leave for a reader of the stream exactly the bytes the call has sent, in order, and the window there is down by their number |
| `NameList.AgreeInstr` | Source/libssh2/src/kex.c:1174-1206 | on a list a NUL follows, a name is found just when it is a whole element, and at 0 just when it is the first |
| `NameList.SeenJoin` | Source/libssh2/src/kex.c:976-998 | a list joined from names is taken apart into them |
| `NameList.SeenElements` | Source/libssh2/src/kex.c:1174-1206 | the elements of a list without NUL are what stands between its commas (44) |
| `KexInit.MethodStrlen` | Source/libssh2/src/kex.c:954-970 | the length of the joined list |
| `KexInit.MethodList` | Source/libssh2/src/kex.c:976-998 | length and names are written, with one comma too many behind them |
| `KexInit.DataLen` | Source/libssh2/src/kex.c:1019-1060 | what is allocated is the size of the packet |
| `KexInit.Build` | Source/libssh2/src/kex.c:1015-1108 | the packet carries exactly the ten lists meant, every surplus comma overwritten, announces no guess, and fills its buffer exactly |
| `KexInit.PacketLayout` | Source/libssh2/src/kex.c:1062-1108 | byte by byte: 20, the cookie, from byte 17 on the ten lists in the order of the standard, each behind its length, then the flag, which announces no guessed packet, and four zeros |
| `KexInit.ListsRoundTrip` | Source/libssh2/src/kex.c:1560-1605 | the ten lists located in a packet that was built are the ten meant |
| `KexInit.FollowedByNul` | Source/libssh2/src/kex.c:1567-1597 | in any packet under 2^24 bytes every list but the last is followed by a NUL |
| `KexAgree.Locate` | Source/libssh2/src/kex.c:1560-1605 | the lists found, none if they do not fit into the packet, and the flag behind them |
| `KexAgree.GetMethodByName` | Source/libssh2/src/kex.c:1212-1225 | the first method of that name |
| `KexAgree.AgreeName` | Source/libssh2/src/kex.c:1378-1539 | the outcome is the first choice of the client that is offered, looked up |
| `KexAgree.OffersItsChoices` | Source/libssh2/src/kex.c:1021-1060 | a client announces the names it chooses from |
| `KexAgree.FirstCommonChoice` | Source/libssh2/src/kex.c:1378-1539 | with known choices, agreement is on the first common one and fails just when there is none |
| `KexAgree.UnknownChoiceRefuses` | Source/libssh2/src/kex.c:1391-1414 | though both know a choice, nothing is agreed on just when a choice before it is listed by the server, which is then unknown to the client; otherwise that choice is taken |
| `KexAgree.UnknownBeforeKnown` | Source/libssh2/src/kex.c:1391-1414 | a preference string and an offer with a method in common that fail |
| `KexAgree.AgreeHostkey` | Source/libssh2/src/kex.c:1231-1296 | the outcome of both searches, including running off the table; a method agreed on is listed by the server, can encrypt if the key exchange requires encryption and sign if it requires signing |
| `KexAgree.FirstFittingHost` | Source/libssh2/src/kex.c:1238-1272 | the first preferred host key that the server lists, and that can encrypt and sign as far as the key exchange requires; none just when no listed one can, up to the end or up to one the client does not know |
| `KexAgree.FirstFittingInTable` | Source/libssh2/src/kex.c:1274-1294 | the same for the table, which is overrun just when no listed method can |
| `KexAgree.TableOverrun` | Source/libssh2/src/kex.c:1274-1294 | a table and an offer with which the search runs off the table |
| `KexAgree.Negotiation.AgreeKexHostkey` | Source/libssh2/src/kex.c:1302-1374 | key exchange and host key are recorded together; an optimistic packet is kept just when the server guessed right |
| `KexAgree.FirstKexWithHost` | Source/libssh2/src/kex.c:1302-1374 | the first common key exchange for which the search for a host key does not come back empty decides, with a listed host key that can do what it requires; nothing is agreed on just when there is none, up to the end or up to one the client does not know |
| `KexAgree.AgreedTerms` | Source/libssh2/src/kex.c:1551-1668 | with known choices: key exchange and host key are on both sides' lists, the host key can do what the key exchange requires, a common key exchange is passed over only if no common host key can, and agreement fails only so or on one of the lists three to eight, over which the other six are agreed on |
| `KexAgree.Negotiation.AgreeMethods` | Source/libssh2/src/kex.c:1551-1668 | the terms are those of all eight agreements over the lists of the packet; key exchange and host key are set just when those two are agreed on, whatever follows; an optimistic packet is to be thrown away just when one was announced and the server's first key exchange is not the one agreed on |
| `KexAgree.PeerOffersItsChoices` | Source/libssh2/src/kex.c:1015-1108 | a peer that builds its packet the same way is taken to offer its own choices |
| `KexAgree.PeersAgreeOnFirstCommon` | Source/libssh2/src/kex.c:1551-1668 | two such peers agree on the client's first choice that the server has, just when there is one |
| `KeyExpand.Exchange.JoinedPrefix` | Source/libssh2/src/kex.c:42-66 | fewer blocks of key material are a prefix of more |
| `KeyExpand.Exchange.KeyChain` | Source/libssh2/src/kex.c:42-66 | a key is, up to its length, a chain of twenties each of which is the hash of K, H and, for the first, letter and session identifier, otherwise all twenties before it |
| `KeyExpand.Exchange.ShorterIsPrefix` | Source/libssh2/src/kex.c:42-66 | a key has the length asked for and a shorter one is the beginning of a longer one |
| `KeyExpand.Expand` | Source/libssh2/src/kex.c:42-66 | every twenty bytes of the buffer up to the length asked for are the hash of K, H and letter and session identifier, or the buffer before them (section 7.2 of RFC 4253); it stays within the 20 bytes allocated beyond the length |
| `KexNesting.KexSession.PacketAdd` | Source/libssh2/src/packet.c:893-951 | an exchange is begun only if none is under way, so the state of one is never wiped |
| `KexNesting.KexSession.PacketRead` | Source/libssh2/src/transport.c:286-304 | called by the exchange it takes in at most one packet and leaves the exchange alone; called by others it gives no packet before the exchange is over |
| `KexNesting.KexSession.PacketRequire` | Source/libssh2/src/packet.c:1091-1146 | of the packets there and those that came, the first of the type is taken just when it succeeds, and nothing is sent; the exchange stays as it is; it fails on no healthy connection and is interrupted only for want of packets |
| `KexNesting.CarriedThen` | Source/libssh2/src/kex.c:1677-1801 | steps carried out one after the other, over any interruptions, have sent as many messages as they write and taken just the packets they wait for |
| `KexNesting.CarriedCounts` | Source/libssh2/src/kex.c:1677-1801 | in numbers: one message has gone out for every step that writes one, and of each type as many packets are gone as steps have waited for |
| `KexNesting.KexSession.ExchangeKeys` | Source/libssh2/src/kex.c:1768-1783 | resumed where it was left, it carries out the steps of the dialogue from there on: a message sent for each it writes, a packet of its type taken for each it waits for; done just when all are, and it fails on no healthy connection |
| `KexNesting.KexSession.KexExchange` | Source/libssh2/src/kex.c:1677-1801 | it is only ever called while none is active, and on return none is; the flag of an unfinished one is set just on EAGAIN; it carries out KEXINIT sent, KEXINIT taken and the dialogue from where it was left to where it is left now, and success means the end of that; the methods are those of the negotiation among it, or as before; success without agreement just when both were set by a refusal at entry and this is no re-exchange; with a healthy connection and an agreeable peer it never fails |
| `KexNesting.RefusedThenDone` | Source/libssh2/src/kex.c:1677-1801 | a start-up that is refused, and succeeds when started again |
| `Base64.DecodeEncode` | Source/libssh2/src/misc.c:141-184 | for all bytes, and foreign characters anywhere in the text, decoding gives back what was encoded |
| `Base64.Alphabet` | Source/libssh2/src/misc.c:105-133 | the alphabet of table 1 of RFC 4648 in its order, and no other characters |
| `Base64.EncodedGroup` | Source/libssh2/src/misc.c:141-184 | three bytes and the four values of their characters are the same number of 24 bits; "=" stands for values without any of the bytes' bits (section 4 of RFC 4648) |
| `Base64.Put` | Source/libssh2/src/misc.c:158-173 | each value completes a byte unless it is the first of four, and begins the next |
| `Base64.Base64Decode` | Source/libssh2/src/misc.c:141-184 | the answer is the decoding; it fails just when alphabet characters number 1 modulo 4, and the buffer allocated suffices |
| `SftpAttrs.AttrSize` | Source/libssh2/src/sftp.c:386-406 | the size of the block that will be written |
| `SftpAttrs.Attr2Bin` | Source/libssh2/src/sftp.c:412-455 | exactly the block is written and its size answered |
| `SftpAttrs.Bin2Attr` | Source/libssh2/src/sftp.c:461-494 | what is read and how much |
| `SftpAttrs.ReadBack` | Source/libssh2/src/sftp.c:412-494 | what was written is read back, with the known flags and the fields they announce, and as much as was written |
| `SftpAttrs.BlockLayout` | Source/libssh2/src/sftp.c:412-455 | flags, and behind them size, owner, mode and times, each announced by its bit 1, 2, 4 or 8 |
| `SftpAttrs.UnchangedIff` | Source/libssh2/src/sftp.c:412-494 | attributes come through unchanged just when they have no other flag and nothing in fields not flagged |
| `SftpFrame.Framer.PacketRead` | Source/libssh2/src/sftp.c:127-219 | packets framed and bytes not yet framed stay the stream that came, over any interruption; it fails just when the channel breaks, a length is too large, or comes in pieces; it is interrupted only when the channel has nothing |
| `SftpFrame.SplitLength` | Source/libssh2/src/sftp.c:127-219 | a length that comes in two pieces: two calls fail and the packet is lost |
| `SftpRead.RequestUnderstood` | Source/libssh2/src/sftp.c:1024-1040 | a server that parses the request finds what was asked: type 5, request number, handle, offset and length, each in its place |
| `SftpRead.Sftp.Take` | Source/libssh2/src/sftp.c:1086-1122 | data is appended to the buffer and moves the offset; end of file ends the read, anything else is an error |
| `SftpRead.Sftp.Await` | Source/libssh2/src/sftp.c:225-378 | the reply is taken unchanged off the channel, however often this is interrupted; it fails just when the channel breaks or the reply's length comes in pieces |
| `SftpRead.Sftp.Read` | Source/libssh2/src/sftp.c:961-1128 | against an honest server, however interrupted, the buffer is filled with the file's bytes from the offset on, as far as there are any, and the offset moves behind them; it fails only when a request cannot be written, the channel breaks, or the length of a reply comes in pieces, and does when the next one will; it is interrupted only when it has to wait, and everything else makes progress |
| `SftpRead.Sftp.ReadOut` | Source/libssh2/src/sftp.c:961-1128 | called again after every interruption, on a connection that does not break and brings no length in pieces, with a request written for each byte of room and bytes coming 14 times as often, the read is completed: the buffer holds the file's bytes from the offset on, all that was asked for or up to the end of the file |
| `SftpRead.ReplyLost` | Source/libssh2/src/sftp.c:145-164 | a connection that never breaks but brings two bytes at a time: the read of a file of one byte fails |

## Left out

- Compression, key and host-key mathematics, random numbers, memory allocation, callbacks, debugging output: parameters of the model, or not in it. Ciphers and hashes do not fail.
- The Objective-C parts of CocoaGit: only their headers are in the repository.
- Transport: the mode (keys in use or not) is fixed between two changes of keys. A received length that no sender produces is excluded by `StreamOk`; what the reader's two asserts would do with it is not modelled.
- PacketReader.Reader.RequirePacket: the blocking wait and its time-out are not modelled; the search of the brigade that comes before the loop is `Brigade.List.Ask`.
- PacketReader.Reader.Offer: reads that a key exchange started by `libssh2_packet_add` makes inside of it are separate calls here; `KexNesting` models the nesting.
- Channels.Session.PacketAdd: DISCONNECT's text, forwarded-tcpip and x11 CHANNEL_OPEN and KEXINIT (see `KexNesting`) are not modelled; messages shorter than the fields read from them are excluded.
- PeerMessages.OtherLinked: KEXINIT also begins a key exchange (see `KexNesting`), and CHANNEL_OPEN for forwarded-tcpip and x11 is answered; that is not part of it.
- Channels: opening, closing and freeing channels, requests (environment, pty, x11, subsystem), and `libssh2_channel_wait_closed`, whose loop ends at once on an open channel.
- `libssh2_channel_handle_extended_data2`: its flush is not part of the model; the mode is a field.
- `libssh2_channel_window_read_ex` and `libssh2_channel_packet_data_len`: simple sums over the same list.
- ChannelRead.ReadEx: after a disconnect the code keeps asking for packets without end unless the peer has closed the channel; the model requires a connected socket at entry. A read that was interrupted may be repeated only if its place in the list is still there (`ByteQueue.PlaceKeptIff`); without that the code uses a packet that has been freed.
- ChannelWrite.WriteEx: a packet size of 0 makes the code send empty messages for ever, so it is required to be positive; `buflen` of 2^32 and more is excluded.
- ReadRuns.FirstInFirstOut: readers that share packets, and a flush that takes some of a reader's packets and leaves others, are outside of it; `ReadRuns.NeverOutOfOrder` and `EndOfFile.EveryByte` hold for every run.
- ReadRuns.RefundedOnce: the same runs; for all readers of a channel together, over any run without merging, see `RunWindows.WindowConserved`.
- RunWindows.WindowConserved: a channel is not closed or freed in the course of a run; ignored data, and data that finds no window, are outside of it (for these see `FlowControl`).
- ChannelFlush.FlushEx: sums beyond 2^31 in its `int` answer are not modelled; data packets are long enough for their addressing fields.
- `libssh2_session_method_pref`: preference strings are taken as they are; languages are not negotiated, as in the code.
- KexAgree.Negotiation.AgreeMethods: lists that reach beyond the packet are refused; the code reads past the packet before it refuses. Initialising compression is left out.
- KexNesting: a wait that times out is a failure; what `exchange_keys` does is a list of writes and waits. `local.kexinit` and `remote.kexinit` buffers are not modelled.
- Base64.Base64Decode: `3 * src_len` is taken not to wrap around.
- SftpRead.Sftp.Read: the time-out of the wait for a reply is not modelled, and after a reply was lost the handle is not read again. One handle reads at a time and one request is outstanding, because replies are matched by `strncmp` on binary numbers; a server that sends more than was asked for would write past the buffer and is excluded, a server that sends 0 bytes would be asked for ever and is excluded.
- SftpFrame.Framer.PacketRead: a channel at its end, where the code's loop does not end, and packets of length 0 are not told apart from others.
- The other SFTP requests, publickey.c, pem.c, userauth.c and scp.c.
