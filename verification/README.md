# Verification of the agent/master process manager

A Dafny model of the parts of this repository that are hard to get right, with proofs. The
repository runs an agent and a master that exchange messages over one connection: the
master asks an agent to start, stop and list processes. The model covers

* **the ring buffer** between an agent's receiver and its processor (`agent/buffer.go`, of
  which `master/buffer.go` is a copy): once as a class over an array, called in sequence
  (`RingBuffer.dfy`), and once as a two-thread protocol in which every cursor load and store, every
  byte copied and every wait is a step of its own (`RingProtocol.dfy`), refined to a bounded queue;
* **the wire protocol**: varints (`Varint.dfy`), the seven message types (`Wire.dfy` for what
  they are, `Codec.dfy` for the objects that encode and decode them), frames and the
  registration handshake (`Framing.dfy`), the agent's loops over its rings (`Agent.dfy`), the
  whole way from the messages sent to the messages processed (`EndToEnd.dfy`) and when it comes to
  a standstill (`Drives.dfy`, `Progress.dfy`), and the pairing of requests and replies under `client.mu`
  (`RequestReply.dfy`);
* **the configuration language**: the lexer as a machine of state tags (`LexSpec.dfy`), its
  invariants and termination (`LexRun.dfy`), the parser's tree builder and a recursive
  denotation (`TreeBuilder.dfy`), the proof that the two stacks mirror each other
  (`Simulation.dfy`), how parsing ends (`Outcomes.dfy`, `Endings.dfy`), which inputs are read as
  documents (`Documents.dfy`), a printer and the round trip (`RoundTrip.dfy`), and the lexer and parser objects themselves, proved against the
  machines (`Lexer.dfy`, `Parser.dfy`).

`Bits.dfy`, `RingBytes.dfy`, `Network.dfy` and `Runs.dfy` hold the bit arithmetic, runs of ring
cells, a connection with arbitrary chunking, and induction over runs.

## How to read it

Objects the program updates in place are classes; each method's `ensures` ties the new state to
a specification function of the old one, and the properties are lemmas about those functions
and about state machines. Threads are modelled by a step relation; a property of
every run is one of `Runs.Reachable`, which allows any interleaving. The varint is that of
Go's `encoding/binary`: the "Base 128 Varints" section of the Protocol Buffers encoding
specification, and its "Signed Integers" section (ZigZag) for pids.

## What the proofs found

* **The receiver and the processor can block each other for ever.** `ReadFrom` waits for 8192
  free bytes and the processor for a whole frame. `Progress.SleepIff`: both can sleep for good
  exactly when the first frame longer than the ring's size less 8191 is not longer than the ring,
  and then only a close changes anything (`Progress.SleepsForGood`). A frame longer than the ring stops
  the processor with an error instead (`Progress.LongerThanRingStops`). With shorter frames they never both
  wait (`Progress.ShortFramesNeverBlock`), and from every state in which both are at work every message
  can still be handled (`Progress.NoDeadEnds`).
* **Frames stop working at 2^28 bytes of body**, where the varint outgrows the four bytes set
  aside for it: `Wire.FrameRoundTrip`, `Wire.FrameSizeIff`, `Framing.FirstFrameIff`.
* **A pid from 2^27 up cannot be stopped**: the four-byte buffer of `StopProcess` overflows
  (`Framing.PidFitsIff`).
* **A key without a value in a map is not an error**: the map it stands in is bound to it
  (`RoundTrip.DanglingKeyTakesTheMap`). `Documents.ReadAsDocumentIff` says this is the only way an
  accepted input is misread.
* **Unfinished keys, quoted strings and blocks make the lexer call one state function for
  ever** at the end of the input: every lone bare word, every quoted key or value left open, every
  open block (`Endings.BareWordNeverEnds` and its neighbours). `Outcomes.OutcomeIff` says exactly when the parser
  returns a tree, refuses, or does not return. `Lexer.Lexer.NextItem` and `Parser.Parse` return `Spins` and `Endless`
  where the program does not return.
* **A block closed by the very last character of the input keeps its closing parenthesis**,
  because the second of two backups there moves nothing; with one character more it does not
  (`Endings.BlockTextIff`, `Endings.BlockAtTheEnd`, `Endings.BlockBeforeNewline`).
* **The ring-side `writeMessage` publishes the compact encoding**, which is the padded frame that the
  readers expect only for bodies from 2^21 up to 2^28 bytes (`Wire.CompactIsFrameIff`); its callers are commented
  out.
* **A failed read of the acknowledgement makes the agent decode an empty buffer**, which is out
  of range, because the error of the read is ignored: exactly when the connection fails before it has
  delivered the six bytes (`Framing.AckReadIff`, `Framing.FailingConnection`).

## Model

| member | source | states |
|---|---|---|
| Bits.MaskIsMod | agent/buffer.go:83 | x & (2^k - 1) is x mod 2^k, bit by bit against division, for every x: the ring index of every position |
| Bits.PowerOfTwoIff | agent/buffer.go:462-464 | the test n & (n - 1) == 0 holds of 0 and the powers of two and of nothing else |
| Bits.RoundUpPowerOfTwo64 | agent/buffer.go:466-477 | smearing the 64 bits of n - 1 and adding one gives the least power of two not below n for 1 <= n <= 2^62, 0 for 0, and -2^63 above 2^62, where the increment wraps |
| Bits.RoundedUp | agent/buffer.go:466-477 | a value whose bits are all ones from the highest bit of n - 1 down is one below the least power of two not below n |
| RingBytes.PutFrame | agent/buffer.go:444-460 | putting bytes in the ring changes no cell but those of the positions written |
| RingBytes.PutRun | agent/buffer.go:444-460 | bytes put at a position and read back from it, round the end of the array, are the same bytes |
| RingBytes.PutKeepsRun | agent/buffer.go:132-146 | bytes put in free cells leave the unread run as it was |
| RingBytes.RunFlat | agent/buffer.go:338-349 | the run of n positions is one slice when it stays inside the array and the tail and the head of the array when it does not |
| RingBuffer.RingCopy | agent/buffer.go:444-460 | the copy loop ends, copies all of its source, and byte k lands at (start + k) mod size with every other cell unchanged |
| RingBuffer.Buffer.NewBuffer | agent/buffer.go:62-91 | a ring is made exactly for size 0 (16384) and powers of two from 16384 up; a negative size, a power of two too small (try 16384) and any other size are each refused as such, the last with the least power of two not below it to try, or -2^63 above 2^62 |
| RingBuffer.Buffer.Index | agent/buffer.go:83 | the masked position is the position mod size, inside the array |
| RingBuffer.Buffer.Close | agent/buffer.go:97-109 | sets the done flag and loses no unread byte |
| RingBuffer.Buffer.Len | agent/buffer.go:111-115 | the number of unread bytes |
| RingBuffer.Buffer.WaitForWriteSpace | agent/buffer.go:404-434 | space is granted exactly when the queue has room for n bytes, although the cached consumer cursor is tested first; a grant leaves a cached cursor that grants the same space again without a reload |
| RingBuffer.Buffer.Write | agent/buffer.go:245-263 | appends exactly its bytes to the queue, round the end of the array if need be, or nothing |
| RingBuffer.Buffer.WriteWait | agent/buffer.go:375-387 | hands out the free cells after the write cursor, all n when they do not go round the end and those up to the end when they do |
| RingBuffer.Buffer.WriteCommit | agent/buffer.go:389-402 | appends the n bytes lying after the write cursor; after a reservation of as many the cached cursor is not even reloaded |
| RingBuffer.Buffer.Fill | agent/buffer.go:132-136 | bytes put in the reserved slice lie after the write cursor and leave the queue alone |
| RingBuffer.Buffer.FillAndCommit | agent/buffer.go:136-146 | bytes put in the reserved slice and committed are appended to the queue as they are |
| RingBuffer.Buffer.ReadFrom | agent/buffer.go:117-156 | for every chunking of the connection, what was taken from the stream was appended to the queue in order; bytes that come with an error included; it stops on a closed ring, a broken connection or less than a block of room, and a broken connection closes the ring |
| RingBuffer.Buffer.ReadBlock | agent/buffer.go:127-146 | one round waits for a block of room, reads as much as the connection offers and has of the part of it before the end of the array, and appends exactly that, with an error or without |
| RingBuffer.Buffer.Read | agent/buffer.go:191-243 | delivers the first bytes of the queue, as many as fit in p, are there and lie before the end of the array, and removes exactly those |
| RingBuffer.Buffer.Show | agent/buffer.go:297-309 | the slice of the ring, or the two pieces joined in tmp, shows the logical run of m bytes |
| RingBuffer.Buffer.ReadPeek | agent/buffer.go:265-312 | shows the first min(n, available) bytes of the queue and leaves the queue alone, with the short flag exactly when fewer than n are there |
| RingBuffer.Buffer.ReadWait | agent/buffer.go:314-350 | shows the first n bytes of the queue, all of them or none, and leaves the queue alone |
| RingBuffer.Buffer.ReadCommit | agent/buffer.go:352-373 | drops exactly the first n bytes when they are there and nothing otherwise |
| RingBuffer.Buffer.WriteOut | agent/buffer.go:170-183 | the bytes a peek showed go to the connection, and are dropped from the ring only if it took them all |
| RingBuffer.Buffer.WriteBlock | agent/buffer.go:163-188 | one round writes the front of the queue, at most 8192 bytes of it, and drops what was written whole |
| RingBuffer.Buffer.WriteTo | agent/buffer.go:158-189 | the connection receives the front of the queue in order, all of it or as much as it takes before it breaks; then the ring is closed with less than one block both sent and still in it; a ring already closed is not drained |
| RingProtocol.InitInv | agent/buffer.go:62-91 | a new ring satisfies the invariant of the two-thread protocol |
| RingProtocol.StepInv | agent/buffer.go:97-434 | every load, store, byte copied, wait and broadcast of either thread, and a close at any moment, keeps the invariant |
| RingProtocol.ReachableInv | agent/buffer.go:117-434 | in every reachable state gate <= cseq <= pseq <= cseq + size, and the bytes consumed followed by the ring run from cseq to pseq are the bytes produced |
| RingProtocol.StepRefinesFifo | agent/buffer.go:117-434 | the store of pseq enqueues what the producer wrote, the store of cseq dequeues what the consumer saw, every other step leaves the bounded queue alone |
| RingProtocol.SeenIsStable | agent/buffer.go:132-146 | no step of the producer, including bytes of ReadFrom not yet committed, nor a close changes what a peeked slice shows |
| RingProtocol.SeenIsStableThroughout | agent/buffer.go:314-373 | the peeked slice shows the same bytes over any run, however long, in which its holder takes no step: neither a commit nor another peek |
| RingProtocol.SeenIsProduced | agent/buffer.go:338-349 | what a peek hands out, aliased or copied byte by byte, is the run of the byte stream at the read cursor |
| RingProtocol.GrantIsSound | agent/buffer.go:404-434 | in every reachable state granted space is really free, whatever stale cursor granted it |
| RingProtocol.CommitNeverWaits | agent/buffer.go:389-402 | the second wait, inside the commit after a reservation, never blocks and publishes at the reserved position |
| RingProtocol.ParkedProducerIsWoken | agent/buffer.go:417-430 | a parked producer for which there is room always has a consumer between its cursor store and its broadcast; the lock is free, so the broadcast can go ahead, and it wakes the producer |
| RingProtocol.DeadlockIff | agent/buffer.go:127 | a producer wanting 8192 free bytes and a consumer that may want any n bytes at any time can block each other for ever exactly when n + 8192 > size + 1 |
| RingProtocol.DeadlockReachable | agent/buffer.go:326-335 | above the bound such a state is reached by a concrete run |
| RingProtocol.DeadlockedForGood | agent/buffer.go:417-430 | once both wait, nothing but a close moves anything |
| Varint.UvarintPut | message/header.go:52-63 | the base-128 decoder returns the encoded 64-bit number and its length whatever bytes follow |
| Varint.VarintPut | master/client.go:98-104 | the same for zigzag-encoded signed 64-bit numbers |
| Varint.PutUvarintLength | message/header.go:80-82 | an encoding has at most k bytes exactly when the number is below 2^(7k) |
| Wire.NewOfTypeByte | message/message.go:67-86 | the dispatch on the type byte inverts the type byte, and no other byte leads to a type |
| Wire.DecodeEncoded | message/header.go:52-82 | for all seven types, decoding an encoding followed by anything gives the message back and the count that encoding returned, for bodies below 2^31 |
| Wire.FrameIsPadded | message/register.go:62-71 | a frame is the compact encoding followed by zeros up to 5 + body length, for bodies below 2^28 |
| Wire.FrameRoundTrip | message/start.go:34-89 | a padded frame decodes to the message it was made of exactly when its body is below 2^28 bytes: beyond, the header outgrows the five bytes set aside |
| Wire.FrameSizeIff | agent/misc.go:78-82 | the first five bytes of a frame tell its length exactly when its body is below 2^28 bytes |
| Wire.FramesSplit | agent/process.go:36-71 | a stream of frames is cut at a frame boundary into the stream before, the frame, and the stream after |
| Wire.CompactIsFrameIff | agent/sendrecv.go:177-226 | the compact encoding is itself the padded frame the readers expect exactly when the length in its header is from 2^21 up to, and not including, 2^28; for shorter bodies it is shorter than the frame |
| Codec.EncodeHeader | message/header.go:52-63 | writes the type byte and the varint length over the start of dst and reports how many bytes |
| Codec.DecodeHeader | message/header.go:65-78 | of an encoded header, whatever follows it, the type byte, the length and the end of the header that were encoded, for lengths an int32 holds; of any other bytes, the first byte and the varint after it as an int32 |
| Codec.RegisterMessage.Len | message/register.go:62-71 | 5 + body length, and the remaining length as an int32 |
| Codec.RegisterMessage.Encode | message/register.go:96-118 | the header, the keep-alive big end first and the name over the start of dst, in bounds, with the count |
| Codec.RegisterMessage.Decode | message/register.go:73-94 | leaves in the object what the decoder specification says of src, or fails as it does |
| Codec.AckMessage.Len | message/ack.go:32-41 | 5 + 1, and a remaining length of one |
| Codec.AckMessage.Encode | message/ack.go:64-85 | the header and the return code over the start of dst, with the count |
| Codec.AckMessage.Decode | message/ack.go:43-62 | the return code, or the type error, as the decoder specification says |
| Codec.QueryMessage.Len | message/query.go:24-31 | 5, and a remaining length of zero |
| Codec.QueryMessage.Encode | message/query.go:45-60 | the header alone over the start of dst, with the count |
| Codec.QueryMessage.Decode | message/query.go:33-43 | the count, as the decoder specification says |
| Codec.PayloadMessage.Len | message/start.go:34-43 | 5 + payload length, and the remaining length as an int32; the same code in stop.go, heartbeat.go and querydetail.go |
| Codec.PayloadMessage.Encode | message/querydetail.go:66-88 | the header and the payload over the start of dst, with the count; the same code in start.go, stop.go and heartbeat.go |
| Codec.PayloadMessage.Decode | message/querydetail.go:45-64 | the payload, with the type check only for this type, as the decoder specification says |
| Codec.HeaderFits | message/register.go:62-118 | a buffer of Len() bytes always has room for the header and a fixed-size body part: encoding stays in bounds |
| Codec.EncodeInto | agent/misc.go:36-45 | any message encoded over the start of a buffer of Len() bytes or more |
| Codec.DecodeInto | message/message.go:67-86 | a new object of the kind the type byte names, filled from src as the decoder specification says |
| Codec.Marshal | agent/misc.go:36-45 | a zeroed buffer of Len() bytes, encoded into, is the frame of the message |
| Framing.SendMessage | agent/misc.go:36-45 | the connection receives exactly the frame |
| Framing.GetMessageBuffer | agent/misc.go:47-101 | for every fragmentation of the reads: the whole frame at the front of the stream is returned, and exactly it taken, if and only if there is one and the connection delivers it before it fails; master/misc.go:62-117 is the same |
| Framing.DeliversIff | agent/misc.go:63-98 | a connection delivers a frame exactly when, after five reads that are not empty, the rest of them offer all of the frame but its first five bytes |
| Framing.FirstFrameIff | agent/misc.go:47-101 | such a cut at the front of a stream is exactly the first frame, leaving exactly the rest, if and only if its body is below 2^28 bytes |
| Framing.Register | agent/server.go:70-88 | sends the register frame and makes of what it reads what the specification of the reply says; takes exactly the frame read, and leaves everything after it in the stream for the ring |
| Framing.ReceiveAck | agent/misc.go:27-34 | whatever is in the stream and however the connection fails: the reply is what the bytes of the frame read decode to, or, the error being ignored, what no bytes decode to |
| Framing.AckReadIff | agent/misc.go:27-34 | an acknowledgement that was sent is read as such, and what follows it left, exactly when the connection delivers six bytes, that is five non-empty reads and one byte more; otherwise the agent decodes out of range |
| Framing.ShortStreamRejected | agent/misc.go:27-34 | a stream without a whole frame is always decoded out of range |
| Framing.FailingConnection | agent/misc.go:27-34 | a connection that fails after five bytes of an acknowledgement makes the agent decode out of range |
| Framing.Master.CreateClient | master/server.go:236-313 | whatever is in the stream and however the connection fails: the client admitted is what the bytes read decode to; it is acknowledged, then published with its name and keep-alive (7200 for 0) unless one of that name already is; a refused connection is sent nothing and publishes nothing |
| Framing.AdmittedIff | master/server.go:255-265 | a registration that was sent is admitted as the client it asks for exactly when the connection delivers its frame, and the connection otherwise refused as lost |
| Framing.PidFitsIff | master/client.go:98-104 | the four-byte buffer holds the zigzag form of a pid exactly for -2^27 <= pid < 2^27 |
| Framing.StopPidRoundTrip | agent/process.go:138-147 | every pid that fits, in particular 1 <= pid < 2^27, comes out of the stop request as it went in, whatever padding follows |
| Agent.Server.WriteMessage | agent/sendrecv.go:177-226 | appends the compact encoding to the outgoing ring, the same bytes on the wrapping and the direct path, or nothing, exactly when Len() bytes fit an open ring; runs past the scratch array exactly on the wrapping path with an encoding longer than Len() and than that array |
| Agent.Server.WriteAround | agent/sendrecv.go:198-212 | the wrapping path, through outtmp: appends the encoding, or fails without touching the queue |
| Agent.Server.WriteInPlace | agent/sendrecv.go:212-223 | the direct path, over the free cells: appends the encoding as far as the reserved cells go |
| Agent.Server.PeekMessageSize | agent/sendrecv.go:66-106 | the type byte and announced length of the frame at the front, exactly when five bytes are there; nothing is consumed |
| Agent.Server.PeekMessage | agent/sendrecv.go:108-138 | the message in the first total bytes as the decoder specification says, or what is missing; nothing is consumed |
| Agent.Server.PeekFrame | agent/process.go:36-50 | whatever is in the ring: the message at its front and its announced length, or what is missing or wrong; nothing is consumed |
| Agent.Server.DropFrame | agent/process.go:60-70 | the commit of a frame that is there succeeds and leaves what follows it; the emptiness test is true exactly when nothing is left |
| Agent.Server.Round | agent/process.go:35-70 | one round of the loop does to the ring what one unfolding of the specification of the loop does |
| Agent.Server.Processor | agent/process.go:22-72 | whatever is in the ring, the messages handed on, what is left and why the loop ends are those of the specification of the loop |
| Agent.FramesDrained | agent/process.go:22-72 | of whole frames and the start of one more, that loop hands on exactly the messages of the whole frames, in order, and leaves exactly the rest; it ends for lack of data, or, told to stop, exactly when nothing is left |
| Agent.FrontFrame | agent/sendrecv.go:66-138 | the frame at the front of a stream tells its own type and length and decodes to its message, whatever follows |
| EndToEnd.ReceiverStream | agent/sendrecv.go:13-38 | every byte sent is on the connection, in the slice ReadFrom is filling, or published, in order, after every receiver step |
| EndToEnd.DecodesNext | agent/sendrecv.go:108-138 | whatever the interleaving, a decode yields the next message sent, with equal type and body |
| EndToEnd.MoveInv | agent/process.go:22-72 | every step of receiver, processor and closer keeps the invariant tying ring, stream and processor position together |
| EndToEnd.HandledIsPrefixOfSent | agent/process.go:36-71 | for every list of messages, every chunking and every interleaving, the messages handled are a prefix of those sent, and each commit lands on a frame boundary |
| EndToEnd.FrameStaysPut | agent/process.go:45-60 | while a message is processed, the ring slice its payload aliases still holds its whole frame |
| Progress.AllCanBeHandled | agent/process.go:36-71 | for every list of messages with frames no longer than the ring's size less 8191, some run of receiver and processor handles all of them and commits all their frames |
| Progress.LongFramePutsToSleep | agent/buffer.go:127 | a frame longer than that, but not than the ring, leads, once those before it are handled, to a state in which receiver and processor both sleep |
| Progress.WaitsForLongFrame | agent/buffer.go:326-335 | whenever both wait, the frame the processor waits for is longer than the bound and no longer than the ring |
| Progress.SleepIff | agent/process.go:36-71 | some run puts both receiver and processor to sleep exactly when the first frame longer than the ring's size less 8191 is not longer than the ring |
| Progress.SleepsForGood | agent/buffer.go:417-430 | once both sleep, only a close changes anything in the whole system |
| Progress.NoDeadEnds | agent/process.go:36-71 | with no frame longer than the bound, from every state of every run in which the ring is open and receiver and processor are at work, the run can go on to handle every message sent |
| Progress.LongerThanRingStops | agent/sendrecv.go:118-123 | before a frame longer than the ring, once the messages before it are handled, the processor learns its size and stops |
| Progress.LongerThanRingOnlyStops | agent/buffer.go:314-318 | there the processor can do nothing else |
| Progress.LongerThanRingNeverHandled | agent/process.go:36-71 | no message with such a frame is ever handled, nor one after it |
| Progress.ShortFramesNeverBlock | agent/buffer.go:417-430 | with no frame longer than the bound they never both wait, in any run |
| RequestReply.StepInv | master/client.go:72-144 | every step of any handler or of the agent keeps the pairing invariant |
| RequestReply.RepliesMatchRequests | master/client.go:72-144 | with any number of handlers: one holder of client.mu at most, the k-th reply answers the k-th request with the type its decoder checks for, and bytes are in flight in one direction at most |
| RequestReply.AnsweredCorrectly | master/misc.go:27-49 | a handler that has its answer has the agent's answer to its own request, and the type check passed |
| RequestReply.AllCanBeAnswered | master/client.go:72-144 | for every list of calls, whichever handler makes each and whatever the agent answers, some run ends with every request answered by that answer and every handler idle |
| LexRun.StepInv | conf/lex.go:97-109 | every call of a state function keeps 0 <= start <= pos <= len and the stack shape, delivers one item at most and never moves back; the states that pop always find a continuation |
| LexRun.StepDecreases | conf/lex.go:168-834 | unless it sits at the end of the input seeking a delimiter, every call halts the lexer or brings it closer to the end of the input or down in rank |
| LexRun.StuckStays | conf/lex.go:252-285 | in the nine delimiter-seeking states, at the end of the input, a call changes nothing and delivers nothing |
| LexRun.Settles | conf/lex.go:75-84 | from every reachable configuration the lexer, within 12 steps a remaining character plus 11, has halted or is stuck seeking a delimiter, and stays so for any number of further calls |
| LexRun.HaltsWithAWord | conf/lex.go:168-199 | the call that halts the lexer delivers an error or the end-of-file item |
| Lexer.Lexer.Next | conf/lex.go:116-128 | the character at the position (NUL at the end of the input), the position past it, and the line counter still that of the position |
| Lexer.Lexer.Backup | conf/lex.go:136-141 | steps back over the last width, a second time included, and the line counter is again that of the position |
| Lexer.Lexer.Peek | conf/lex.go:144-148 | the next character, with position and line as they were |
| Lexer.Lexer.Ignore | conf/lex.go:131-133 | the pending input is dropped |
| Lexer.Lexer.Deliver | conf/lex.go:111-114 | appends an item that is the in-bounds slice start..pos with the current line, and starts afresh |
| Lexer.Lexer.Errorf | conf/lex.go:153-165 | appends an error item at the current line and halts |
| Lexer.Lexer.PushState | conf/lex.go:97-99 | the continuation goes on top of the stack |
| Lexer.Lexer.Pop | conf/lex.go:101-109 | the top continuation, or an error and a halt when there is none |
| Lexer.Lexer.LexTop | conf/lex.go:168-199 | the fields after the call are the machine's next configuration, its item is appended, and the line counter is that of the position; comments, end of file and the start of a key |
| Lexer.Lexer.LexTopValueEnd | conf/lex.go:204-227 | the fields after the call are the machine's next configuration, its item is appended, and the line counter is that of the position |
| Lexer.Lexer.LexKeyStart | conf/lex.go:231-249 | the fields after the call are the machine's next configuration, its item is appended, and the line counter is that of the position |
| Lexer.Lexer.LexDubQuotedKey | conf/lex.go:252-261 | the fields after the call are the machine's next configuration, its item is appended, and the line counter is that of the position |
| Lexer.Lexer.LexQuotedKey | conf/lex.go:264-273 | the fields after the call are the machine's next configuration, its item is appended, and the line counter is that of the position |
| Lexer.Lexer.LexKey | conf/lex.go:277-285 | the fields after the call are the machine's next configuration, its item is appended, and the line counter is that of the position |
| Lexer.Lexer.LexKeyEnd | conf/lex.go:290-301 | the fields after the call are the machine's next configuration, its item is appended, and the line counter is that of the position |
| Lexer.Lexer.LexValue | conf/lex.go:306-344 | the fields after the call are the machine's next configuration, its item is appended, and the line counter is that of the position |
| Lexer.Lexer.LexArrayValue | conf/lex.go:348-374 | the fields after the call are the machine's next configuration, its item is appended, and the line counter is that of the position |
| Lexer.Lexer.LexArrayValueEnd | conf/lex.go:378-401 | the fields after the call are the machine's next configuration, its item is appended, and the line counter is that of the position |
| Lexer.Lexer.LexArrayEnd | conf/lex.go:405-409 | the fields after the call are the machine's next configuration, its item is appended, and the line counter is that of the position |
| Lexer.Lexer.LexMapKeyStart | conf/lex.go:414-447 | the fields after the call are the machine's next configuration, its item is appended, and the line counter is that of the position; its peeks and the one backup after a slash included |
| Lexer.Lexer.LexMapQuotedKey | conf/lex.go:450-459 | the fields after the call are the machine's next configuration, its item is appended, and the line counter is that of the position |
| Lexer.Lexer.LexMapDubQuotedKey | conf/lex.go:462-471 | the fields after the call are the machine's next configuration, its item is appended, and the line counter is that of the position |
| Lexer.Lexer.LexMapKey | conf/lex.go:475-483 | the fields after the call are the machine's next configuration, its item is appended, and the line counter is that of the position |
| Lexer.Lexer.LexMapKeyEnd | conf/lex.go:488-499 | the fields after the call are the machine's next configuration, its item is appended, and the line counter is that of the position |
| Lexer.Lexer.LexMapValue | conf/lex.go:504-517 | the fields after the call are the machine's next configuration, its item is appended, and the line counter is that of the position; a closing brace right after a key lets the key go |
| Lexer.Lexer.LexMapValueEnd | conf/lex.go:521-544 | the fields after the call are the machine's next configuration, its item is appended, and the line counter is that of the position |
| Lexer.Lexer.LexMapEnd | conf/lex.go:548-552 | the fields after the call are the machine's next configuration, its item is appended, and the line counter is that of the position |
| Lexer.Lexer.LexQuotedString | conf/lex.go:563-574 | the fields after the call are the machine's next configuration, its item is appended, and the line counter is that of the position |
| Lexer.Lexer.LexDubQuotedString | conf/lex.go:579-590 | the fields after the call are the machine's next configuration, its item is appended, and the line counter is that of the position |
| Lexer.Lexer.LexString | conf/lex.go:594-616 | the fields after the call are the machine's next configuration, its item is appended, and the line counter is that of the position |
| Lexer.Lexer.LexBlock | conf/lex.go:621-650 | the fields after the call are the machine's next configuration, its item is appended, and the line counter is that of the position; with its double backups: the block text ends before a lone closing parenthesis, which stays in the text at the real end of the input |
| Lexer.Lexer.LexStringEscape | conf/lex.go:654-672 | the fields after the call are the machine's next configuration, its item is appended, and the line counter is that of the position |
| Lexer.Lexer.LexStringBinary | conf/lex.go:676-689 | the fields after the call are the machine's next configuration, its item is appended, and the line counter is that of the position |
| Lexer.Lexer.LexNumberOrDateStart | conf/lex.go:693-703 | the fields after the call are the machine's next configuration, its item is appended, and the line counter is that of the position |
| Lexer.Lexer.LexNumberOrDate | conf/lex.go:706-723 | the fields after the call are the machine's next configuration, its item is appended, and the line counter is that of the position |
| Lexer.Lexer.LexDateAfterYear | conf/lex.go:727-750 | the fields after the call are the machine's next configuration, its item is appended, and the line counter is that of the position; the loop over the date form reads exactly as far as the input fits |
| Lexer.Lexer.LexNumberStart | conf/lex.go:755-766 | the fields after the call are the machine's next configuration, its item is appended, and the line counter is that of the position |
| Lexer.Lexer.LexNumber | conf/lex.go:769-781 | the fields after the call are the machine's next configuration, its item is appended, and the line counter is that of the position |
| Lexer.Lexer.LexFloatStart | conf/lex.go:785-792 | the fields after the call are the machine's next configuration, its item is appended, and the line counter is that of the position |
| Lexer.Lexer.LexFloat | conf/lex.go:796-805 | the fields after the call are the machine's next configuration, its item is appended, and the line counter is that of the position |
| Lexer.Lexer.LexCommentStart | conf/lex.go:809-813 | the fields after the call are the machine's next configuration, its item is appended, and the line counter is that of the position |
| Lexer.Lexer.LexComment | conf/lex.go:818-826 | the fields after the call are the machine's next configuration, its item is appended, and the line counter is that of the position |
| Lexer.Lexer.LexSkip | conf/lex.go:829-834 | the fields after the call are the machine's next configuration, its item is appended, and the line counter is that of the position |
| Lexer.Lexer.Call | conf/lex.go:81 | calling the current state function makes the machine's step |
| Lexer.Lexer.NextItem | conf/lex.go:75-84 | returns the next token of the whole run, leaving the rest to deliver; Spins exactly where the program would call state functions for ever with nothing left to deliver |
| TreeBuilder.BuildNode | conf/parse.go:86-164 | the tokens of any value leave the two stacks below it alone and act as if its value had been set at once, or the parse fails where one of its scalars cannot be converted |
| TreeBuilder.BuildDocument | conf/parse.go:29-50 | the tokens of a whole document, however nested, build exactly the map the recursive denotation gives, the last binding of a repeated key winning, with no key left over |
| TreeBuilder.CommentsIgnored | conf/parse.go:86-147 | comment items make no difference to what is built, on any token stream |
| Simulation.EffectOfStep | conf/lex.go:168-552 | every lexer step opens, closes and binds contexts as the item it delivers says, on stacks that spell the open contexts |
| Simulation.Heeds | conf/parse.go:86-164 | a parser that mirrors the lexer takes the item without any panic and mirrors it again; a map end finds an open map, an array end an open array, the end of file only the root |
| Simulation.JointRun | conf/parse.go:40-48 | lexer and parser run in step from any mirrored pair of states to the end of the input |
| Simulation.ParseNeverCrashes | conf/parse.go:56-84 | on no input is any of the panics reached; an accepted input leaves only the root map open, and exactly as many keys over as maps were closed between a key and its value |
| Outcomes.OutcomeIff | conf/parse.go:29-50 | for every input: a tree exactly when the lexer reaches the end of the file and every scalar converts; a refusal exactly when some scalar does not or the lexer stops with an error; and no return exactly when the lexer runs out of input seeking a delimiter and every scalar before converts |
| Outcomes.OutcomeFrom | conf/parse.go:40-48 | the same of the rest of every run, from any mirrored pair of states |
| Endings.BareWordNeverEnds | conf/lex.go:277-285 | no lone bare word, whatever it is, is ever parsed to an end |
| Endings.OpenKeyNeverEnds | conf/lex.go:264-273 | nor is a quoted key left open |
| Endings.OpenStringNeverEnds | conf/lex.go:563-574 | nor a quoted value left open, after any key |
| Endings.OpenBlockNeverEnds | conf/lex.go:621-650 | nor a block without a line that closes it |
| Endings.BlockTextIff | conf/lex.go:621-650 | a block ends exactly at a closing parenthesis with a line to itself, and its text stops before that parenthesis exactly when the parenthesis is not the last character of the input |
| Endings.BlockBeforeNewline | conf/lex.go:621-650 | every block closed by a parenthesis with a newline after it parses to the text before the parenthesis |
| Endings.BlockAtTheEnd | conf/lex.go:621-650 | the same block closed by the last character of the input parses to that text with the parenthesis |
| Documents.ReadAsDocumentIff | conf/parse.go:29-50 | an accepted input is the spelling of a document exactly when no map is closed between a key and its value, and then the tree built is the one that document denotes |
| Documents.Completes | conf/lex.go:168-552 | the tokens of any run that drops no key and reaches the end of file are those of a well-bracketed document in which every key is followed by its value |
| Documents.SpellingBuilds | conf/parse.go:40-48 | an input that spells a document parses to what the document denotes, or fails where a scalar cannot be converted |
| RoundTrip.PrintedIsReadBack | conf/parse.go:21-50 | every configuration of nested maps, arrays, quote-free strings and keys, 64-bit integers and booleans, printed, is lexed and parsed back to exactly its value |
| RoundTrip.EveryTableIsParsed | conf/parse.go:21-50 | every such table value is what the parser makes of some text |
| RoundTrip.EveryEntryIsBound | conf/parse.go:158-163 | with distinct keys the table read back binds exactly the keys written, each to its own value |
| RoundTrip.ReadValue | conf/lex.go:306-616 | the text of a printed value with a newline after it, wherever it stands, is lexed to the tokens of its node and back to the continuation on the stack |
| RoundTrip.DocumentTokens | conf/lex.go:168-552 | the printed document is lexed to the flattened document and the end-of-file item |
| RoundTrip.NumeralReads | conf/parse.go:102-112 | the decimal form of every 64-bit integer converts back to it, the least one included |
| RoundTrip.DanglingKeyTakesTheMap | conf/lex.go:511-512 | for all keys, `'x'={'k'}` parses without an error, binds the empty map to k instead of x, and leaves x on the key stack |
| Parser.Parser.PushContext | conf/parse.go:56-59 | the context becomes the innermost and current one |
| Parser.Parser.PopContext | conf/parse.go:61-70 | removes the innermost context and makes the one below current; with none there, or none below, the panic |
| Parser.Parser.PushKey | conf/parse.go:72-74 | the key goes on top of the key stack |
| Parser.Parser.PopKey | conf/parse.go:76-84 | the last key, or the panic when there is none |
| Parser.Parser.SetValue | conf/parse.go:149-164 | the value goes onto the current array, or under the last key in the current map, as the machine specification says |
| Parser.Parser.CloseContext | conf/parse.go:94-95 | the closed context becomes a value of the one below it, for maps and (lines 139-142) for arrays |
| Parser.Parser.ProcessItem | conf/parse.go:86-147 | the stacks after an item, or the error or panic, are those of the machine specification |
| Parser.Parse | conf/parse.go:29-50 | the loop over the real lexer and parser objects returns what the two machines compute, never panics, and does not return exactly when the lexer runs out and every scalar before converts |

## Left out

- Sockets, HTTP routing, JSON, logging, pid files, signals, `ForkExec`, `Kill` and `Wait4`: a connection is a byte stream delivered in arbitrary pieces, and the code or process list an agent puts in a reply is arbitrary.
- The agent's process table, `handleChild`, the master's registry of clients under duplicate names, and reconnecting: unlocked check-then-act without a strong invariant.
- `readMessage` (`agent/sendrecv.go:140-175`): it has no caller, and reads past the frame when its scratch buffer is longer than the frame.
- Liveness of `Close`, wake-ups of a waiting consumer, and draining after a close: the code does not guarantee them. In `RingProtocol` a consumer's wait is a guard that is evaluated again.
- RingBuffer.Buffer.WaitForWriteSpace: called in sequence, a wait that only the other thread could end is the outcome `WouldBlock`; `RingProtocol` has the waiting itself.
- RingBuffer.Buffer.ReadFrom: the `total` the source returns with the end of a wait is 0 here as there; the timeouts `master/buffer.go` sets on the connection are not modelled.
- Cursors are unbounded: a ring that has carried 2^63 bytes is not modelled.
- RingBuffer.Buffer.Show: a Go slice's capacity beyond its length is not modelled; the scratch slice is a value.
- Codec.EncodeInto: the message objects are made for the call from the message value; `SetType` and other setters are easy members.
- Framing.GetMessageBuffer: the branch for more than five header bytes cannot be taken and is not modelled.
- Framing.Register: back-off and retry are not modelled.
- Framing.Master.CreateClient: a failing write of the acknowledgement, the start of the client's threads, and concurrent registrations between the lookup of a name and its publication are not modelled.
- Codec.RegisterMessage.Decode: a body that runs past the end of src is out of range here; in Go it is not while it stays within the capacity of the slice.
- Codec.PayloadMessage.Decode: the same, of the payload.
- Agent.Server.WriteInPlace: Dafny has no slices of an array, so the slice of the ring is copied out, encoded over and put back; the mutex `wmu` is not modelled.
- Agent.Server.WriteMessage: of an encoding longer than the space reserved, the bytes past that space are not said on the direct path: they are what the ring held. A scratch array's capacity beyond its length is not modelled.
- Agent.Server.Processor: replying and the error results of handlers, which the loop only logs, are modelled in `RequestReply` or not at all.
- TreeBuilder.BuildNode: a float or a date is kept as its text, not as a float64 or a time.
- Parser.Parser.ProcessItem: the same.
- Parser.Parse: the same, in the tree returned.
- Parser.Parser.SetValue: maps are values on the context stack; that Go's maps are references, so that the root map is also reachable as `p.mapping`, is not captured. The root is taken from the stack at the end.
- TreeBuilder.BuildDocument: floats and dates are kept as their text. When `strconv.ParseFloat` and `time.Parse` refuse them is modelled for the forms the lexer delivers: an integer part that rounds to no finite float64, and a field of a date out of its range, the day by the Gregorian calendar.
- Lexer.Lexer.Next: characters are of width 1; multi-byte runes are not modelled.
- Lexer.Lexer.Backup: widths are 0 and 1, for the same reason.
- Lexer.Lexer.LexBlock: so is what its two backups step over.
- Lexer.Lexer.Errorf: the text of the error item is not modelled.
- Lexer.Lexer.LexDateAfterYear: the loop is in a method of its own, `ReadDate`.
- RoundTrip.PrintedIsReadBack: floats, dates, blocks, double-quoted and bare strings are read by the lexer but not written by the printer.
- `ProcessConfigFile`, `processOptions`, constants, `genID`, `String` methods and the examples.
