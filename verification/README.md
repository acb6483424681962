# Verified models of BinkleyForce

BinkleyForce is a FidoNet mailer. This project restates the parts of it that carry the weight
in Dafny and proves what they promise: the Hydra, BinkP and Zmodem transfer engines with their
link codecs, checks and cipher, the daemon's call scheduler, the expression parser, MD5 and
CRAM, the glob matcher and the nested fields of EMSI.

Check everything with `dafny verify dfyconfig.toml`.

## How it is built

Each component has two layers. Functions and state machines say what the component computes;
classes and methods with loops do it the way the C code does, on buffers, stacks, tables and
fields that are updated in place. Each class has an abstraction function or a ghost record of what
it has taken and produced, and its contracts say what a call does to that: which bytes go onto the
line, which blocks have come off it, which step of the state machine has been taken. The theorems are
about the functions and state machines, for every input, every run, or every reachable state, and
for the transfer engines they are carried over to ends that read and write bytes in pieces of any
size over a line that delivers them (`LineIsSafe`, `HeardInOrder`, `NothingLost`, `BytesInStep`).

| modules | what they hold |
|---|---|
| `Wrappers`, `Files`, `Decimal` | options, files and what happens to them, decimal numbers |
| `Crc` | the three table-driven checks, bit-serial division, residues |
| `HydraCodec`, `HydraWire`, `HydraLink`, `HydraTransparency` | the four link encodings and the packet receiver: functions, what they put on the line in plain numbers, the in-place code of `s_hydrainfo`, and the proof that packets pass the link |
| `HydraQueue` | packet queue, output buffer, partial writes |
| `HydraSession` | one turn of `hydra_batch` as a function on packets |
| `HydraSafety`, `HydraOutcome`, `HydraRuns` | two stations over a link that loses, repeats, delays and reorders; the invariant, what it means for a transfer, and runs in which a SUCCESS goes wrong |
| `HydraProgress`, `HydraHandshake`, `HydraRecovery`, `HydraSessions`, `HydraRetries` | that transfers get somewhere: where a resend goes on from, recovery from losses, whole sessions that succeed, and what timeouts, errors and unexpected packets lead to |
| `HydraInit`, `HydraPackets`, `HydraNegotiation`, `HydraOpening` | INIT and its options, the payload of every packet, the order in which options come into force, and what is sent before |
| `HydraTurn`, `HydraStation`, `HydraPair` | one turn of `hydra_batch` over its buffers, bytes in and bytes out; the class that makes it; two of them on a line of any kind |
| `HydraGreeting`, `HydraDelivery`, `HydraFlow`, `HydraSettling`, `HydraLine` | two of them on a line that delivers what is written: START and INITACK and the string that may cut them, what a prefix of a stream is heard as, how far each has got, the options, and the whole |
| `Bits`, `BinkpCrypt`, `BinkpFrames` | modular arithmetic by shifts; the stream cipher; blocks out of a byte stream read in pieces |
| `BinkpResume`, `BinkpInStep`, `BinkpDelivery` | transfer mode with resume: state machine, invariant over every run, and which files are delivered and released |
| `BinkpMessages`, `BinkpEnds`, `BinkpLine` | the messages' texts; the two ends over their buffers; both joined by byte streams |
| `Zmodem` | data subpackets: escaping, checks, `zdlread`, `zrdata` |
| `Daemon`, `DaemonTables`, `DaemonRun`, `DaemonRotation`, `DaemonOutcome` | the scheduler: steps, the class with its tables, the run invariant, round robin, what the steps lead to |
| `Expression`, `ExpressionParser`, `ExpressionMeaning`, `ExpressionStacks` | the LALR tables and machine against a recursive reading; that reading against the meaning of expression trees; the machine over stacks that grow |
| `Emsi`, `EmsiNesting`, `EmsiIdent` | escaping and the destructive reader; which texts survive nesting; IDENT |
| `Md5`, `Glob` | padding and HMAC; mask matching |

## How the outside world enters

What the C code learns from the outside is an input of each step, and the theorems hold for
all of them: whether a timer has expired, what the link delivers, whether a file can be opened,
read, written or closed and how much of a block was written before an error, how many bytes a
read or write of the line moves, whether `fork` works, what the outbound holds, when a system
may be called. A file is a sequence of bytes. In the Hydra model of packets the link is the set of
all packets ever sent, of which any may arrive at any time, any number of times, or never. At the level of
bytes it is anything at all (`HydraPair`), with theorems for as long as no packet is heard that has not
been sent, or delivers the bytes written (`HydraLine`), where this is proved.
In the BinkP model of messages the link is a pair of FIFO queues, at the level of bytes a pair of streams.

## What was found

Where the code does not do what its documentation or its design promises, the models follow
the code; each case is settled by a theorem below.

* UUE packets (`prot_hydra.c:793`): the decoder compares the encoded size with the size of the
  destination, so blocks of more than 1545 bytes, which are sent, are never decoded
  (`UueLimit`, `LinkTransparent`).
* Hydra, late refusal (`prot_hydra.c:1927-1948`, `2033-2049`): if the receiver refuses a file
  when the sender has already read its end, the acknowledgement of the refusal is recorded as
  SUCCESS (`LateRefusal`). A read error at the sender can also end as SUCCESS
  (`ForgottenReadError`). Unless it overrules a refusal, a recorded SUCCESS is true
  (`SuccessIsTrue`); one that does may be true or not (`OverruledButTrue`).
* Hydra, damaged packets (`prot_hydra.c:1578-1591`, `1953-2031`): a damaged packet draws a request for a
  resend, and while this is open an EOF is not looked at. If every byte of the file had arrived - the
  damaged packet was the EOF, say - the request is for the end of the file, is answered with the EOF, and the
  transfer can never be completed; in all other cases it can (`DamagedPacket`, `Recovers`).
* Hydra, START (`prot_hydra.c:1274-1282`): `hydra` and a carriage return go straight to the tty, past
  the buffer, and after a timeout may fall inside a half-written START or INITACK. Such a packet may be
  lost, but nothing is heard that has not been sent, and nothing behind these packets is lost
  (`GreetingHeard`, `HeardInOrder`).
* BinkP batches, framing (`prot_binkp.c:153-169`): a restart sets `want_read` and leaves `read_pos`, so a
  reader in the middle of a block, or with a block waiting, keeps its place in the stream if and only
  if it wants exactly two bytes (`BinkpReader.Restart`).
* BinkP batches (`prot_binkp.c:153-169`): the M_EOB that was sent before an M_GET arrived still
  counts for the batch in which the file is sent again, so a batch can restart in the middle of
  a file (`PrematureRestartFails`). A restart leads to a protocol error if and only if the next
  block in flight is data (`RestartFails`). Without such a restart there are no errors
  (`NoProtocolErrors`, `BytesInStep`).
* BinkP, empty files (`prot_binkp.c:1031-1102`): only a block of data can complete a file, so an empty one is
  never moved to the inbound; every other file can be delivered (`DeliveredExactly`).
* Expressions (`expression.tab.c:1260-1284`): in a list of two or more flags or times, all
  entries but the last contribute the number of their token instead of a check. A list means
  what it should, that some entry is true, if and only if it has one entry or some entry is
  true (`ListsAsMeant`); a longer one is always true (`LongListsAreTrue`).
* Masks (`u_misc.c:122-179`): a single star at the end needs at least one character, and several
  stars at the end match nothing (`MatchesIsMeant`, `StarAtTheEndDiffers`).
* Rescanning the outbound (`daemon.c:681-686`): the entry behind a removed one is not looked at,
  so empty entries remain exactly when two were neighbours (`RescanLeavesNoEmpty`).
* EMSI (`prot_emsi_misc.c:62-73`, `378-426`): bytes that cannot be printed, those from 127 among
  them, are written in decimal and read in hexadecimal, and a backslash is not doubled. A text
  in a nested field comes back if and only if no backslash in it is followed by another
  backslash, by a byte that cannot be printed, or by exactly two hexadecimal digits, and no
  byte of it that cannot be printed is 10 or more or followed by a hexadecimal digit
  (`FieldExactly`, `NestedExactly`, `IdentExactly`). A single byte does if and only if it is below
  10 or printable (`ByteExactly`).
* MD5 (`u_md5.c:219-261`): four of the eight length bytes are stored, which is right exactly below
  2^29 bytes (`PaddingLimit`).
* Zmodem (`prot_zmmisc.c:272-345`): a receiver that drops control characters loses exactly those
  which the sender does not escape, unnoticed (`ByteArrives`, `ByteHeard`); a subpacket arrives if and
  only if it loses none (`SubpacketArrives`).

## Model

| member | source | states |
|---|---|---|
| `Crc.TableCrc32CcittIsDivision` | source/bforce/u_crc.c:38-144 | each of the 256 entries of TableCRC32CCITT is its index divided bit by bit by 0xedb88320 |
| `Crc.TableCrc16CcittIsDivision` | source/bforce/u_crc.c:38-144 | the same for the 16-bit CCITT table and 0x8408 |
| `Crc.TableCrc16XmodemIsDivision` | source/bforce/u_crc.c:38-144 | the same for the XMODEM table and 0x1021, most significant bit first |
| `Crc.Step32IsDivision` | source/bforce/u_crc.c:158-174 | for every register and byte, one table lookup is eight bit-serial divisions |
| `Crc.Step16IsDivision` | source/bforce/u_crc.c:198-206 | the same for the 16-bit CCITT check |
| `Crc.StepXIsDivision` | source/bforce/u_crc.c:178-194 | the same for the XMODEM check |
| `Crc.GetCrc32Ccitt` | source/bforce/u_crc.c:158-174 | the loop over the table computes the bit-serial remainder of the whole buffer |
| `Crc.GetCrc16Ccitt` | source/bforce/u_crc.c:198-206 | the same for CRC-16 CCITT |
| `Crc.GetCrc16Xmodem` | source/bforce/u_crc.c:178-194 | the same for CRC-16 XMODEM, started at 0 |
| `Crc.Residue32` | source/bforce/prot_hydra.c:533-548 | for every message, message and complemented check, low byte first, leave 0xdebb20e3 (appendix C.3 of RFC 1662), which the receiver tests for |
| `Crc.Residue16` | source/bforce/prot_hydra.c:533-548 | the 16-bit counterpart leaves 0xf0b8 (appendix C.2 of RFC 1662) |
| `HydraTransparency.BinTextAbsorbed` | source/bforce/prot_hydra.c:402-422 | for all options, whatever was sent last, an escaped block goes through the receive loop and leaves exactly its bytes in the buffer; nothing in it is dropped as flow control or taken for a control sequence |
| `HydraTransparency.HexTextAbsorbed` | source/bforce/prot_hydra.c:424-448 | a HEX block reaches the buffer with its DLE escapes undone, within three characters a byte |
| `HydraTransparency.HexRoundTrip` | source/bforce/prot_hydra.c:715-746 | the HEX decoder returns exactly the bytes encoded, backslashes, control and high bytes included, whatever lies behind the block |
| `HydraTransparency.AscRoundTrip` | source/bforce/prot_hydra.c:450-473 | n bytes become exactly ceil(8n/7) septets, and the decoder returns those n bytes with none added |
| `HydraTransparency.AscInStep` | source/bforce/prot_hydra.c:748-774 | after the septets of any prefix the reader holds exactly the bits the writer has not sent yet |
| `HydraTransparency.UueRoundTrip` | source/bforce/prot_hydra.c:475-494 | UUE groups of three, two and one bytes decode to the bytes encoded, whatever byte the encoder reads behind the block |
| `HydraTransparency.UueLimit` | source/bforce/prot_hydra.c:776-845 | the decoder's size test admits a block if and only if it has at most 1545 bytes |
| `HydraTransparency.StoredDecodes` | source/bforce/prot_hydra.c:702-845 | for every format, what is stored of a block decodes to it, except UUE blocks beyond the limit, which never decode |
| `HydraTransparency.BodyIsGood` | source/bforce/prot_hydra.c:916-959 | payload, type and check bytes pass the receiver's length and check tests and are split into the same type and payload |
| `HydraTransparency.FrameArrives` | source/bforce/prot_hydra.c:847-1012 | from any state with fewer than four pending DLEs a framed block gives one event and consumes exactly the frame |
| `HydraTransparency.LinkTransparent` | source/bforce/prot_hydra.c:496-583 | for all options, packet types, payloads and receiver states with fewer than four pending DLEs (so also amid junk or a packet cut short), the text of a packet is received as that packet, and as undecodable exactly when its block exceeds the UUE limit |
| `HydraTransparency.StreamTransparent` | source/bforce/prot_hydra.c:847-1012 | a run of packets gives one event a packet, in order, and no other event |
| `HydraWire.EscapedExactly` | source/bforce/prot_hydra.c:402-422 | a BIN or ASC byte is escaped if and only if it is DLE or what the options say the link swallows, with either parity where they say so, and then by changing the bit of weight 64 |
| `HydraWire.HexExactly` | source/bforce/prot_hydra.c:424-448 | a HEX byte from 128 is a backslash and its two digits, a control character is escaped, a backslash doubled, any other byte sent as it is |
| `HydraWire.DroppedExactly` | source/bforce/prot_hydra.c:856-869 | what the receiver drops is what the options say the link adds, and never DLE |
| `HydraWire.FormatExactly` | source/bforce/prot_hydra.c:496-531 | START, INIT, INITACK, END and IDLE are HEX; the others BIN on a line of eight bits, and otherwise the first that can be used of UUE, ASC and HEX |
| `HydraWire.CheckedExactly` | source/bforce/prot_hydra.c:533-548 | behind payload and type comes the 32-bit check if it was agreed on and the packet is not HEX, otherwise the 16-bit one |
| `HydraWire.FramedExactly` | source/bforce/prot_hydra.c:496-583 | the two bytes before a block, and the two or four behind it |
| `HydraWire.JudgedExactly` | source/bforce/prot_hydra.c:916-959 | a decoded block is a packet if and only if its check leaves the residue and its type is a letter from A to N |
| `HydraWire.MarksHeard` | source/bforce/prot_hydra.c:879-993 | what a character behind a DLE means to the receiver: the end of a packet, with or without a beginning, a new beginning, or an escaped character |
| `HydraWire.ExitExactly` | source/bforce/prot_hydra.c:871-878 | the session is given up exactly at the fifth DLE in a row |
| `HydraLink.HydraInfo.constructor` | source/bforce/prot_hydra.c:1136-1173 | a fresh receiver: nothing collected, no DLE pending, no last character |
| `HydraLink.HydraInfo.PutBinByte` | source/bforce/prot_hydra.c:402-422 | appends the escaped byte in place, keeps what is before it, and remembers the last character |
| `HydraLink.HydraInfo.PutBinBlock` | source/bforce/prot_hydra.c:496-583 | the loop over a block writes the text BinTextAbsorbed is about |
| `HydraLink.HydraInfo.PutAscBlock` | source/bforce/prot_hydra.c:450-473 | the shift register writes the septets of AscRoundTrip, escaped, within two bytes a septet |
| `HydraLink.HydraInfo.EncodeBlock` | source/bforce/prot_hydra.c:475-583 | head and block in any of the four formats, with the room it takes at worst |
| `HydraLink.HydraInfo.PutCheck` | source/bforce/prot_hydra.c:533-548 | two or four check bytes go behind the block, which stays as it is |
| `HydraLink.HydraInfo.PutPkt` | source/bforce/prot_hydra.c:496-583 | writes the packet text of LinkTransparent, never beyond three bytes a byte and twelve more |
| `HydraLink.HydraInfo.DecodeBlock` | source/bforce/prot_hydra.c:702-845 | the four decoders agree with their functions on every buffer, well formed or not, and never store more than HYDRA_MAXDATALEN; what an ill-formed HEX block lets them read behind it is what the buffer holds there |
| `HydraLink.HydraInfo.StoreChar` | source/bforce/prot_hydra.c:994-1004 | a character is stored while there is room; an overlong packet is abandoned |
| `HydraLink.HydraInfo.EndPacket` | source/bforce/prot_hydra.c:885-959 | decodes, checks and splits the collected block, or reports junk |
| `HydraLink.HydraInfo.TakeChar` | source/bforce/prot_hydra.c:847-1012 | one character moves the receiver as its automaton says, with the payload left in ibuf |
| `HydraLink.HydraInfo.Recv` | source/bforce/prot_hydra.c:847-1012 | takes characters up to the first event and leaves the rest of the input alone; what lies behind the packet in the buffer matters only at its end |
| `HydraQueue.HydraOutput.constructor` | source/bforce/prot_hydra.c:1136-1173 | an empty queue and an empty buffer whose pointer is at its start |
| `HydraQueue.HydraOutput.QueuePkt` | source/bforce/prot_hydra.c:585-629 | one packet text is added behind all others, nothing else changes, and it fits its allocation, the 24 bytes of a packet without data included |
| `HydraQueue.HydraOutput.FillData` | source/bforce/prot_hydra.c:1383-1396 | a DATA packet of up to 2048 bytes is encoded straight into the idle buffer and fits it at worst-case expansion |
| `HydraQueue.HydraOutput.BufferPacket` | source/bforce/prot_hydra.c:631-647 | a packet is copied behind what is buffered, or not at all |
| `HydraQueue.HydraOutput.BufferPackets` | source/bforce/prot_hydra.c:649-678 | moving packets from the queue into the buffer neither loses, repeats nor reorders a byte |
| `HydraQueue.HydraOutput.WriteBuffer` | source/bforce/prot_hydra.c:680-700 | a partial write puts exactly the next bytes on the line, and what waits is the rest; an empty buffer has its pointer back at the start |
| `HydraQueue.HydraOutput.Send` | source/bforce/prot_hydra.c:649-700 | written, buffered and queued bytes together stay the concatenation of all packets; a successful call writes something if anything waits, and never more than there is room for |
| `HydraQueue.HydraOutput.Hail` | source/bforce/prot_hydra.c:1274-1282 | what HTX_START puts on the tty goes onto the line at once, past whatever is queued or half written |
| `HydraQueue.UnsentTake` | source/bforce/prot_hydra.c:653-678 | marking the first unsent packet as sent takes exactly its text off the front of what is queued |
| `HydraQueue.DrainedIsDelivered` | source/bforce/prot_hydra.c:585-700 | whatever the partial writes, a drained queue past which nothing has been put has written a text that the receiver takes apart into exactly the packets queued, in order |
| `HydraSession.Align` | source/bforce/prot_hydra.c:1116-1134 | the block size is one of the powers of two from 64 to 2048: the least that is not below the size asked for, if there is one |
| `HydraSession.TurnsAfterEnd` | source/bforce/prot_hydra.c:1213-1213 | once finished, further input changes nothing |
| `HydraSafety.IterationKeeps` | source/bforce/prot_hydra.c:1213-2080 | one turn of a station, whatever has been sent before arrives and whatever fails, keeps the invariant of both directions |
| `HydraSafety.TxHandleSound` | source/bforce/prot_hydra.c:1593-2060 | every packet the other side can have sent leaves the transmit side sound in every state, duplicates and late ones included |
| `HydraSafety.TxTickSound` | source/bforce/prot_hydra.c:1273-1502 | all that the transmit side sends of itself is true: data from its place, the length as EOF, a negative EOF only for a file given up |
| `HydraSafety.RxHandleSound` | source/bforce/prot_hydra.c:1574-2031 | every packet the sender can have sent keeps the partial file a prefix of the sender's |
| `HydraSafety.RxDataSound` | source/bforce/prot_hydra.c:1764-1841 | so does any data packet, a partial write included |
| `HydraSafety.TxRposSound` | source/bforce/prot_hydra.c:1866-1951 | any resend request, old or new, whatever it asks for, leaves position, offset and block size consistent; where the resend goes on from is ResendFromOffset |
| `HydraSafety.RunInvariant` | source/bforce/prot_hydra.c:1185-2103 | every state of every run of two stations satisfies the invariant, and the files being sent do not change |
| `HydraOutcome.PrefixSafety` | source/bforce/prot_hydra.c:1764-1841 | in every reachable state what was written is a prefix of the sender's file, while receiving it is exactly its first bytes_received bytes, and only the file itself is ever moved to the inbound; local errors, resyncs and block size changes included |
| `HydraOutcome.OffsetsAreTrue` | source/bforce/prot_hydra.c:1377-1465 | DATA carries the bytes of its offset, a non-negative EOF is the true length, no request or resume offset lies beyond the end |
| `HydraOutcome.BlockSizes` | source/bforce/prot_hydra.c:1877-1913 | in every reachable state the block size is a power of two from 64 to 2048, and no DATA packet is longer |
| `HydraOutcome.SuccessIsTrue` | source/bforce/prot_hydra.c:2033-2049 | a file recorded as SUCCESS has been moved to the inbound unchanged, whatever errors and losses there were, unless the EOFACK found it already refused or skipped |
| `HydraOutcome.CommitAgreement` | source/bforce/prot_hydra.c:1953-2049 | without local file errors no EOFACK finds it so, and SUCCESS implies that the receiver has committed the sender's file |
| `HydraProgress.ResendFromOffset` | source/bforce/prot_hydra.c:1866-1913 | a resend request that has not been heard before is answered from the offset it names, wherever the transmitter was: the next DATA packet starts there, carries the bytes of the file from there on up to the block size, and that size is the least allowed one holding the size asked for, or unchanged if none is |
| `HydraProgress.RunTames` | source/bforce/prot_hydra.c:1866-1875 | in every run: no window is ever agreed, no transmitter is ever in HTX_XWAIT, and none has heard, and no link holds, a request with a higher id than the receiver has given out |
| `HydraRecovery.Recovers` | source/bforce/prot_hydra.c:1395-2049 | from every reachable state in which a file is under way and bytes of it are still missing, whatever has been lost and wherever the transmitter has got to, there is a continuation in which the receiver asks for the rest, gets it and moves the file to the inbound, and the sender records SUCCESS |
| `HydraRecovery.DamagedPacket` | source/bforce/prot_hydra.c:1578-1591 | after a damaged packet the transfer can still be completed if and only if some byte of the file had not arrived |
| `HydraRecovery.DoomedStays` | source/bforce/prot_hydra.c:1953-2031 | a receiver that has every byte and asks for a resend never gets the file into the inbound, in any continuation |
| `HydraHandshake.Handshake` | source/bforce/prot_hydra.c:1213-1336 | two fresh stations reach the state in which both INITs have been taken |
| `HydraSessions.Crossing` | source/bforce/prot_hydra.c:1622-2049 | every file, from its beginning or from where an earlier session has stopped, has a run in which it is received, moved to the inbound unchanged and recorded as SUCCESS |
| `HydraSessions.NotWanted` | source/bforce/prot_hydra.c:1622-1762 | a file that is refused or skipped is recorded as that, and what the receiver had of it stays |
| `HydraSessions.CompleteLeftover` | source/bforce/prot_hydra.c:1622-1706 | a partial file that turns out to be complete is moved to the inbound and not sent again, and refused if it cannot be moved |
| `HydraSessions.OfferRepeated` | source/bforce/prot_hydra.c:1622-1706 | an offer heard again is answered as before, ignored in the middle of a file, and refused behind the end of the batch |
| `HydraSessions.BatchEnds` | source/bforce/prot_hydra.c:1472-2103 | from the last file on there is a continuation in which both stations finish without being halted, with the same outcome and inbound |
| `HydraSessions.SessionCompletes` | source/bforce/prot_hydra.c:1185-2103 | for every file and every beginning of it that an earlier session has left there is a whole run, from the first START to the last END, that delivers it and finishes at both stations |
| `HydraRetries.SenderRepeats` | source/bforce/prot_hydra.c:1232-1246 | an overdue answer: what was not answered is sent once more, nine times in all, then the batch is halted |
| `HydraRetries.RequestRepeated` | source/bforce/prot_hydra.c:1248-1271 | a request goes out again with its id and offset, asking for blocks of half the size; so does one when no data comes |
| `HydraRetries.ReceiverRepeats` | source/bforce/prot_hydra.c:1248-1271 | and this is all that such a turn does |
| `HydraRetries.OtherTimeouts` | source/bforce/prot_hydra.c:1232-1246 | a transmitter that waits for its window goes on, and one that waits for nothing is not disturbed |
| `HydraRetries.BlocksGrow` | source/bforce/prot_hydra.c:1398-1412 | the block size doubles exactly when 4096 bytes have gone out in good blocks of it, up to 2048 |
| `HydraRetries.WindowFills` | source/bforce/prot_hydra.c:1395-1435 | a transmitter stops for an acknowledgement if and only if a whole window is unacknowledged |
| `HydraRetries.WindowMoves` | source/bforce/prot_hydra.c:1843-1864 | an acknowledgement between the last one and what has been sent moves the window, and goes on with sending exactly if there is room again; any other is ignored |
| `HydraRetries.RequestOnce` | source/bforce/prot_hydra.c:1866-1875 | a request with an id heard before changes nothing |
| `HydraRetries.SenderGivesUp` | source/bforce/prot_hydra.c:1876-1896 | a request with a negative offset ends the file, as skipped for -1 and refused for any other, with an EOF that says so |
| `HydraRetries.SeekFails` | source/bforce/prot_hydra.c:1914-1926 | so does one whose offset cannot be reached, as refused |
| `HydraRetries.WriteFails` | source/bforce/prot_hydra.c:1764-1841 | a block that cannot be written: what was written stays, the rest of the file is turned down with a new request, and a file taken away counts as skipped |
| `HydraRetries.WrongBlock` | source/bforce/prot_hydra.c:1764-1841 | a block from any other offset is not written: it draws one request with a new id and half the block size, or, while one is open, the same request again exactly if the transmitter has gone back |
| `HydraRetries.WrongEnd` | source/bforce/prot_hydra.c:1953-2031 | an EOF at any other offset draws a new request and moves nothing to the inbound |
| `HydraRetries.SkipGoesOn` | source/bforce/prot_hydra.c:1953-2031 | a file turned down is asked for no further once its negative EOF has come, and every other EOF repeats the refusal |
| `HydraRetries.UnexpectedEnd` | source/bforce/prot_hydra.c:2013-2030 | an EOF that is not expected is acknowledged exactly if its offset is -2 |
| `HydraRetries.EndAcknowledged` | source/bforce/prot_hydra.c:2033-2049 | an EOFACK closes the file with SUCCESS exactly if its end has been read, and otherwise with the status it had |
| `HydraRetries.OfferAnswered` | source/bforce/prot_hydra.c:1708-1762 | what each answer to an offer does to the file: gone on with at the offset, skipped, refused, or given up because the offset cannot be reached |
| `HydraRetries.ReadFails` | source/bforce/prot_hydra.c:1377-1395 | a file that cannot be read further is ended with its EOF, as skipped if it has been taken away and otherwise as refused |
| `HydraRetries.HaltCloses` | source/bforce/prot_hydra.c:2096-2103 | a batch that is halted closes the file being sent with the status it had, and deletes the partial file exactly if it was to be skipped |
| `HydraRetries.NotForSender` | source/bforce/prot_hydra.c:1593-2060 | every packet that its state does not wait for leaves the transmitter as it is |
| `HydraRetries.NotForReceiver` | source/bforce/prot_hydra.c:1593-2060 | and every packet meant for the transmitter leaves the receiver so |
| `HydraRetries.InitAnswered` | source/bforce/prot_hydra.c:1601-1612 | every INIT is acknowledged, but only the first one taken, and one that cannot be met halts the batch |
| `HydraRetries.WindowsTaken` | source/bforce/prot_hydra.c:1090-1104 | the first INIT sets both windows to what it names, and nothing else but the receiver's state |
| `HydraRetries.EndAnswered` | source/bforce/prot_hydra.c:1622-1640 | the end of the batch is taken where an offer is expected, refused once it has been taken, and ignored in the middle of a file |
| `HydraRuns.LateRefusal` | source/bforce/prot_hydra.c:1927-1948 | for every one-byte file there is a run in which a write error at the receiver ends as SUCCESS at the sender with nothing received |
| `HydraRuns.ForgottenReadError` | source/bforce/prot_hydra.c:2033-2049 | there is also one in which only the sender has an error, and SUCCESS is recorded with nothing received |
| `HydraRuns.OverruledButTrue` | source/bforce/prot_hydra.c:1953-2049 | and one in which a SUCCESS that overrules a refusal is true all the same, because the file had been received before it was offered and refused again |
| `HydraNegotiation.IterationGoes` | source/bforce/prot_hydra.c:1213-2080 | one turn of a station sends no packet that is not always HEX before both ends have taken an INIT, whatever such a station may hear |
| `HydraNegotiation.OptionsInStep` | source/bforce/prot_hydra.c:1601-1620 | in every run: a packet that is not always sent as HEX has been sent only after both ends have taken the other's INIT and set their options |
| `HydraOpening.RunOpens` | source/bforce/prot_hydra.c:1273-1336 | in every run: as long as a station is in HTX_START or HTX_SWAIT it has sent nothing but START and INITACK, and the other station has not taken an INIT |
| `HydraSettling.OptionsTurn` | source/bforce/prot_hydra.c:1062-1072 | one turn over the buffers: if the INIT heard is one of this program, the options are the agreed ones exactly from the turn on in which it is taken, and every packet that depends on options is encoded with these |
| `HydraPackets.LongRoundTrip` | source/bforce/prot_hydra.c:268-292 | signed 32-bit numbers, the -1 and -2 among them, are read as they were written |
| `HydraPackets.WordRoundTrip` | source/bforce/prot_hydra.c:278-298 | the same for 16-bit numbers |
| `HydraInit.HexReads` | source/bforce/prot_hydra.c:1344-1347 | k hexadecimal digits of a number are read as that number, and the rest is left |
| `HydraInit.FlagsRoundTrip` | source/bforce/prot_hydra.c:300-350 | every set of options comes back from the list of its names |
| `HydraInit.NamesSpelt` | source/bforce/prot_hydra.c:213-227 | the names of the eleven options, letter by letter and in order |
| `HydraInit.NegotiatedExactly` | source/bforce/prot_hydra.c:1062-1065 | an option is agreed on if and only if one side wants it and both can |
| `HydraInit.BitIs` | source/bforce/prot_hydra.c:160-170 | the options are compared as a number with these bits |
| `HydraInit.NeverRefused` | source/bforce/prot_hydra.c:1067-1072 | with this program's options no other station is found incompatible |
| `HydraInit.InitRoundTrip` | source/bforce/prot_hydra.c:1018-1112 | the INIT built by one station is taken apart into the same options and windows, within 120 bytes beyond the application's text |
| `HydraInit.SameOptions` | source/bforce/prot_hydra.c:1062-1072 | two stations of this program agree on the 32-bit check and nothing else |
| `HydraPackets.PayloadRoundTrip` | source/bforce/prot_hydra.c:1018-2080 | for every type of packet, INIT and FINFO included, the payload built for it is parsed as that packet, and fits |
| `HydraPackets.FInfoRead` | source/bforce/prot_hydra.c:1337-1365 | the text of an offer gives back the file's time and length and, from byte 40 on, its short name and its long one if there is one |
| `HydraPackets.PacketCrosses` | source/bforce/prot_hydra.c:496-1012 | a session packet put on the link in any encoding is taken off it as the same packet, or, beyond the UUE limit, reported as undecodable |
| `HydraPackets.RunIsPortable` | source/bforce/prot_hydra.c:1395-1912 | every packet of a run of fewer than 2^31 - 100 steps on files below 2^31 bytes can be carried: offsets, block sizes and the ids of requests fit their fields, ids because a turn takes at most one |
| `HydraTurn.SeriesTurns` | source/bforce/prot_hydra.c:1185-2080 | the states and packets of a series of turns over the buffers are those of the packet-level station fed with what was heard |
| `HydraTurn.HexTextIsFixed` | source/bforce/prot_hydra.c:496-531 | what is always sent as HEX has one text whatever the options |
| `HydraTurn.TextArrives` | source/bforce/prot_hydra.c:496-1012 | the text of a packet is heard as that packet by every receiver with the sender's options, and by every receiver at all if it is always sent as HEX; beyond the UUE limit it is reported as undecodable |
| `HydraStation.PayloadFits` | source/bforce/prot_hydra.c:585-629 | no packet a station puts together is too large for its buffers, INIT and FINFO texts included |
| `HydraStation.HydraStation.constructor` | source/bforce/prot_hydra.c:1185-1213 | the state in which a batch begins, with empty buffers |
| `HydraStation.HydraStation.Say` | source/bforce/prot_hydra.c:585-629 | a packet is put together in obuf and queued, or encoded into the idle buffer, under the options of the moment; nothing else changes and nothing reaches the line |
| `HydraStation.HydraStation.Exchange` | source/bforce/prot_hydra.c:1557-1573 | the receiver, the bytes left and the event are those the automaton makes of what was left and what came; the next bytes of what waits are written, some if there is room, never more than there is room for; a failure means an abort by the other end or a failed write |
| `HydraStation.HydraStation.Turn` | source/bforce/prot_hydra.c:1213-2080 | one turn of the loop over the buffers, whatever comes in: unless the batch has ended by then, the input is taken up to the first event and the rest kept, an INIT settles the options exactly where one is expected, the next bytes and no others are written, packets are encoded with the options of the moment, and states and packets are those of one turn of a station of packets that hears this event; an expired dead timer ends the batch before anything else |
| `HydraStation.HydraStation.Drain` | source/bforce/prot_hydra.c:2082-2095 | if the closing loop succeeds, every byte of every packet is on the line, in order |
| `HydraStation.HydraStation.Batch` | source/bforce/prot_hydra.c:1185-2103 | the main loop is a series of such turns, one for each of the first chunks and rooms, up to the end of the batch; the closing loop writes and changes nothing else, and the result is no error only if both sides are done and every packet has been written |
| `HydraStation.SentIsHeard` | source/bforce/prot_hydra.c:496-1012 | so is every packet that a station has sent over its buffers |
| `HydraPair.HydraPair.constructor` | source/bforce/prot_hydra.c:1185-1213 | two fresh stations are a run of HydraSafety |
| `HydraPair.HydraPair.TurnOfA` | source/bforce/prot_hydra.c:1213-2080 | with any bytes whatever on the line, a turn of a station over its buffers; two of them continue a run of HydraSafety exactly as long as every packet heard has been sent by the other |
| `HydraPair.HydraPair.TurnOfB` | source/bforce/prot_hydra.c:1213-2080 | the same for the other station |
| `HydraPair.PairIsSafe` | source/bforce/prot_hydra.c:1764-2049 | prefix safety and the truth of a SUCCESS for the fields of two stations on a line that does anything to the bytes, as long as every packet heard has been sent; on a line that delivers what is written this is so (LineIsSafe) |
| `HydraGreeting.GreetingIs` | source/bforce/prot_hydra.c:496-583 | the text of START and of INITACK, character by character, whatever the options |
| `HydraGreeting.ClosingHarmless` | source/bforce/prot_hydra.c:885-959 | a HEX block that decodes to bytes which are no packet types, but for those of some kinds, is junk or a packet of these kinds, whatever its check and whatever lies behind it |
| `HydraGreeting.GreetingHeard` | source/bforce/prot_hydra.c:847-1012 | whatever hails fall into START and INITACK packets, wherever and however often, only junk and packets of the types sent are heard |
| `HydraDelivery.TextHeard` | source/bforce/prot_hydra.c:847-1012 | the exact outcome of a packet's text: the event, the receiver behind it, and its line end left over |
| `HydraFlow.ReadOn` | source/bforce/prot_hydra.c:847-1012 | given the next bytes of what the other station has written, in a chunk of any size, the event is none, junk or a packet of the greeting, or behind the greeting exactly the packet that is due, and the station is ready to go on |
| `HydraFlow.AllHeard` | source/bforce/prot_hydra.c:847-1012 | when everything sent has been written and read, no packet behind the greeting is still due |
| `HydraLine.LinkedTurn` | source/bforce/prot_hydra.c:1213-2080 | a turn of either station on such a line: what it hears has been sent, options agree, and both can go on |
| `HydraLine.HydraLine.constructor` | source/bforce/prot_hydra.c:1185-1213 | two fresh stations on such a line |
| `HydraLine.HydraLine.TurnOfA` | source/bforce/prot_hydra.c:1213-2080 | given any number of the bytes that come next, station a takes them all if it reads at all, what arrives behind the greeting is the packet that is due, and the line stays sound |
| `HydraLine.HydraLine.TurnOfB` | source/bforce/prot_hydra.c:1213-2080 | the same for station b |
| `HydraLine.HydraLine.DrainOfA` | source/bforce/prot_hydra.c:2082-2095 | the closing loop keeps the line sound and, if it succeeds, has written everything |
| `HydraLine.HydraLine.DrainOfB` | source/bforce/prot_hydra.c:2082-2095 | the same for station b |
| `HydraLine.LineIsSafe` | source/bforce/prot_hydra.c:1764-2049 | prefix safety and the truth of a SUCCESS for two stations over their buffers on a line that delivers the bytes written in pieces of any size, with no assumption on what is heard |
| `HydraLine.HeardInOrder` | source/bforce/prot_hydra.c:847-1012 | on such a line only START and INITACK packets can be lost; the packets behind them are heard once and in order |
| `HydraLine.NothingLost` | source/bforce/prot_hydra.c:631-1012 | and none of them is missing once all that has been sent has been written and read |
| `BinkpCrypt.DecryptInverts` | source/bforce/prot_binkp_crypt.c:99-148 | decryption with equal keys inverts encryption, for every text and key state |
| `BinkpCrypt.UpdateFollows` | source/bforce/prot_binkp_crypt.c:99-109 | the key update, with the product by 134775813 as a sum of shifts and both checks as bit-serial divisions |
| `BinkpCrypt.KeyByteIs` | source/bforce/prot_binkp_crypt.c:122-131 | the key byte is bits 8 to 15 of t(t + 1) for an even and t(t - 1) for an odd t, where t is the low half of the third key with its second bit set |
| `BinkpCrypt.BitsUsed` | source/bforce/prot_binkp_crypt.c:122-131 | it depends on fourteen bits of the third key, from 4 to 2^15, and on nothing else |
| `BinkpCrypt.BytesMayAgree` | source/bforce/prot_binkp_crypt.c:122-131 | keys that differ in these bits may still give the same byte: third keys of 0 and 4 do |
| `BinkpCrypt.FirstKeyByte` | source/bforce/prot_binkp_crypt.c:111-131 | from the initial keys the first key byte is 171 |
| `BinkpCrypt.EncryptedByStream` | source/bforce/prot_binkp_crypt.c:99-148 | encrypting combines each byte with the key byte of the state reached by updating the keys with all plain bytes before it |
| `BinkpCrypt.EncryptInverts` | source/bforce/prot_binkp_crypt.c:99-148 | encryption inverts decryption too, for equal keys |
| `BinkpCrypt.AfterApart` | source/bforce/prot_binkp_crypt.c:99-109 | keys that differ stay different, whatever is encrypted |
| `Bits.TimesIs` | source/bforce/prot_binkp_crypt.c:105-105 | multiplying by 134775813 modulo 2^32 is adding six shifts |
| `Bits.PronicIs` | source/bforce/prot_binkp_crypt.c:129-130 | temp times its neighbour is the product of two numbers that follow each other |
| `BinkpCrypt.DecryptConcat` | source/bforce/prot_binkp_crypt.c:133-137 | decrypting in pieces of any size decrypts the whole |
| `BinkpCrypt.EncryptConcat` | source/bforce/prot_binkp_crypt.c:139-148 | the same for encrypting |
| `BinkpCrypt.Cipher.InitKeys` | source/bforce/prot_binkp_crypt.c:111-121 | the initial keys advanced by the password |
| `BinkpCrypt.Cipher.EncryptBuf` | source/bforce/prot_binkp_crypt.c:139-148 | the loop turns the buffer, in place, into its bytes combined with the key stream of EncryptedByStream, and leaves the keys behind it |
| `BinkpCrypt.Cipher.DecryptBuf` | source/bforce/prot_binkp_crypt.c:133-137 | the loop takes the key stream of the bytes it finds off the buffer, in place, and leaves the keys behind it |
| `BinkpCrypt.EndsUnderstand` | source/bforce/prot_binkp.c:273-277 | with the same password, each end reads what the other has written, cut anywhere |
| `BinkpFrames.HeaderReads` | source/bforce/prot_binkp.c:124-141 | length and kind are read off the header as they were put in |
| `BinkpFrames.WireUnique` | source/bforce/prot_binkp.c:199-230 | blocks can be read off a byte stream in one way only |
| `BinkpFrames.BinkpReader.constructor` | source/bforce/prot_binkp.c:68-112 | a reader that waits for a header |
| `BinkpFrames.BinkpReader.Read` | source/bforce/prot_binkp.c:199-222 | a chunk of any size allowed is stored, decrypted if need be, and counted; the decrypted stream is always the blocks accepted and the part in the buffer |
| `BinkpFrames.BinkpReader.Offer` | source/bforce/prot_binkp.c:224-249 | a complete block is offered until it is accepted; accepted blocks are exactly the bytes of the stream |
| `BinkpFrames.BinkpReader.Restart` | source/bforce/prot_binkp.c:153-169 | a batch restart keeps the reader's place in the stream if and only if exactly two bytes were wanted, as they are between blocks; otherwise the block at hand will not have the length in its header |
| `BinkpFrames.BinkpReader.Peek` | source/bforce/prot_binkp.c:224-233 | the block handed up is the one whose frame the buffer holds |
| `BinkpFrames.CompleteIsNext` | source/bforce/prot_binkp.c:199-249 | a block that is complete at the reader is the next one the writer has been given, whatever the sizes of reads and writes |
| `BinkpFrames.BinkpWriter.constructor` | source/bforce/prot_binkp.c:68-112 | a writer with nothing to write |
| `BinkpFrames.BinkpWriter.Fill` | source/bforce/prot_binkp.c:124-141 | header and block are put together and encrypted as a whole |
| `BinkpFrames.BinkpWriter.Write` | source/bforce/prot_binkp.c:251-266 | a partial write puts the next bytes on the line |
| `BinkpFrames.ChunkingIrrelevant` | source/bforce/prot_binkp.c:199-249 | two readers given the same bytes in different pieces have accepted the same blocks and hold the same rest |
| `BinkpFrames.BlocksArrive` | source/bforce/prot_binkp.c:124-249 | what is accepted is always a prefix of what was sent, and all of it once the line is read, encrypted or not, whatever the sizes of reads and writes |
| `BinkpFrames.NothingOvertaken` | source/bforce/prot_binkp.c:237-242 | when the handshake needs no more blocks exactly the bytes of its blocks have been taken off the line |
| `BinkpInStep.RunInvariant` | source/bforce/prot_binkp.c:511-1090 | in every state of every run, up to a batch restart in the middle of a file, the stage of the transfer and the positions of both ends agree |
| `BinkpInStep.InStep` | source/bforce/prot_binkp.c:561-588 | up to a batch restart in the middle of a file: while data is taken, the partial file is the first bytes_received bytes, the next block in flight starts exactly there, and so do the blocks behind it up to the sender's position |
| `BinkpInStep.NoProtocolErrors` | source/bforce/prot_binkp.c:761-813 | no M_FILE overlaps, no data is unexpected or extra, and no closed file is used, in any run without a restart in mid-file |
| `BinkpInStep.GotMeansDelivered` | source/bforce/prot_binkp.c:1028-1090 | up to a batch restart in the middle of a file: M_GOT is queued, and the sender's file given up, only for a complete identical file, unless the receiver had it or lost its own copy |
| `BinkpDelivery.AckEndsFile` | source/bforce/prot_binkp.c:861-930 | in every state: a file sent to its end is released with SUCCESS by M_GOT, and stays in the queue, refused, after M_SKIP; nothing else changes |
| `BinkpDelivery.AnswerStopsFile` | source/bforce/prot_binkp.c:875-905 | an answer in the middle of a file ends its sending: M_GOT as skipped and released, M_SKIP as refused and kept |
| `BinkpDelivery.GetResumes` | source/bforce/prot_binkp.c:941-1023 | M_GET: the next messages are M_FILE with the offset asked for and the block of the file from there on, wherever the sender was |
| `BinkpDelivery.GetFails` | source/bforce/prot_binkp.c:941-1023 | it ends the session if the file has been given up or cannot be read from there, and releases nothing that was not to be released |
| `BinkpDelivery.GetWaits` | source/bforce/prot_binkp.c:953-953 | it stays in the buffer while extracmd is occupied, and the next call empties that |
| `BinkpDelivery.NothingMore` | source/bforce/prot_binkp.c:511-640 | behind the end of its batch the sender says nothing before an M_GET |
| `BinkpDelivery.AnswerWithoutFile` | source/bforce/prot_binkp.c:878-885 | an M_GOT or M_SKIP when no file is being sent ends the session, as the code looks into the file that has been closed |
| `BinkpDelivery.OnlyTheRest` | source/bforce/prot_binkp.c:776-789 | behind an M_GET only the file from the offset asked for is taken; any other offer draws M_SKIP |
| `BinkpDelivery.WriteFails` | source/bforce/prot_binkp.c:1040-1066 | a block that cannot be written: M_SKIP with what was written kept, or M_GOT if the file has been taken away |
| `BinkpDelivery.CloseFails` | source/bforce/prot_binkp.c:1080-1102 | a complete file that cannot be moved to the inbound draws M_SKIP and is not counted as received |
| `BinkpDelivery.TooMuch` | source/bforce/prot_binkp.c:1068-1079 | data beyond the size offered is a protocol error |
| `BinkpDelivery.Unasked` | source/bforce/prot_binkp.c:1035-1037 | so is data before any M_FILE |
| `BinkpDelivery.Misplaced` | source/bforce/prot_binkp.c:1045-1066 | a partial file that is not as long as was counted draws M_SKIP |
| `BinkpDelivery.HeldBack` | source/bforce/prot_binkp.c:761-1043 | while extracmd is occupied, exactly the blocks that could need it wait |
| `BinkpDelivery.OtherGoesFirst` | source/bforce/prot_binkp.c:953-1043 | so do these if the other transfer has taken extracmd |
| `BinkpDelivery.Ignored` | source/bforce/prot_binkp.c:1031-1041 | data of a file that is turned down or asked for again, and empty blocks, change nothing |
| `BinkpDelivery.SenderBatches` | source/bforce/prot_binkp.c:153-169 | the sending end restarts a batch if and only if both counts of complete batches are positive, and counts both down by one |
| `BinkpDelivery.ReceiverBatches` | source/bforce/prot_binkp.c:153-169 | so does the receiving end, which forgets the file it is taking |
| `BinkpDelivery.Delivered` | source/bforce/prot_binkp.c:511-1110 | every file that is not empty, whatever of it an earlier session has left and however much of that is kept, in NR mode or not, has a run without errors after which it is in the inbound and the sender has released it with SUCCESS |
| `BinkpDelivery.EmptyNeverArrives` | source/bforce/prot_binkp.c:1068-1102 | in no run is an empty file moved to the inbound |
| `BinkpDelivery.DeliveredExactly` | source/bforce/prot_binkp.c:1068-1102 | so a new file can be delivered if and only if it is not empty |
| `BinkpDelivery.Refusal` | source/bforce/prot_binkp.c:511-1110 | a file that is refused is not released, and nothing of it is kept |
| `BinkpDelivery.AlreadyThere` | source/bforce/prot_binkp.c:511-1110 | one that is there already is released unsent |
| `BinkpInStep.RestartFails` | source/bforce/prot_binkp.c:153-169 | in every state in which a batch can restart, whatever the receiver is doing, the next block heard is a protocol error if and only if it is data; the receiver is then in the middle of a file |
| `BinkpInStep.PrematureRestartFails` | source/bforce/prot_binkp.c:853-859 | such a state is reached: for every two-byte file with one byte already there, an M_EOB counted twice restarts the batch in mid-file |
| `BinkpMessages.InfoRead` | source/bforce/prot_binkp_misc.c:39-65 | a name and its numbers, negative ones too, are read as they were written, within the length a block has room for |
| `BinkpMessages.NamesCleaned` | source/bforce/prot_binkp_misc.c:39-65 | whatever comes in: slashes in a name become underscores, and nothing else changes |
| `BinkpMessages.ForwardRoundTrip` | source/bforce/prot_binkp.c:561-588 | M_FILE, M_EOB and data blocks of a transfer are taken for what they are, and fit a block |
| `BinkpMessages.AnswerRoundTrip` | source/bforce/prot_binkp.c:761-1023 | so are M_GET, M_GOT and M_SKIP |
| `BinkpEnds.SendingEnd.Fill` | source/bforce/prot_binkp.c:117-141 | a free writer gets what the transfer says next as a block of its stream; everything said is recorded in order |
| `BinkpEnds.SendingEnd.Listen` | source/bforce/prot_binkp.c:224-249 | the complete block is taken for its one meaning, answered as the transfer does, or left in the buffer while a message waits; what it cannot understand ends the session |
| `BinkpEnds.ReceivingEnd.Fill` | source/bforce/prot_binkp.c:117-141 | the message in extracmd goes out as a block and the slot is free |
| `BinkpEnds.ReceivingEnd.Listen` | source/bforce/prot_binkp.c:648-1110 | the complete block is taken for its one meaning, and is part of the file, a message or an error; it stays in the buffer if its answer would need the occupied slot |
| `BinkpLine.HeardForward` | source/bforce/prot_binkp.c:199-249 | what the receiver has heard is what the sender has said, up to a point |
| `BinkpLine.HeardBack` | source/bforce/prot_binkp.c:199-249 | and what the sender has heard is what the receiver has said |
| `BinkpLine.NextForward` | source/bforce/prot_binkp.c:224-249 | the block a receiver has complete means the next message in flight |
| `BinkpLine.NextBack` | source/bforce/prot_binkp.c:224-249 | the same on the way back |
| `BinkpLine.BinkpLine.constructor` | source/bforce/prot_binkp.c:298-330 | two ends over empty streams are in an initial state of BinkpInStep |
| `BinkpLine.BinkpLine.SenderFills` | source/bforce/prot_binkp.c:117-141 | filling the writer is one step of the transfer model, and the ends stay joined |
| `BinkpLine.BinkpLine.SenderWrites` | source/bforce/prot_binkp.c:251-266 | n more bytes of the stream are on the line, and this is no step at all |
| `BinkpLine.BinkpLine.ReceiverReads` | source/bforce/prot_binkp.c:199-222 | the next bytes of the stream are taken, in a chunk of any size, and this is no step at all |
| `BinkpLine.BinkpLine.ReceiverListens` | source/bforce/prot_binkp.c:648-1110 | hearing a block is one step of the transfer model |
| `BinkpLine.BinkpLine.SenderListens` | source/bforce/prot_binkp.c:861-1023 | so is hearing an answer |
| `BinkpLine.BinkpLine.Elsewhere` | source/bforce/prot_binkp.c:142-169 | so is what the other transfer and its batches do |
| `BinkpLine.BinkpLine.SenderBegins` | source/bforce/prot_binkp.c:153-169 | a batch restart at the sender is a step too, after which the streams are still in place if and only if its reader wanted exactly two bytes |
| `BinkpLine.BinkpLine.ReceiverBegins` | source/bforce/prot_binkp.c:153-169 | the same at the receiver |
| `BinkpLine.BytesInStep` | source/bforce/prot_binkp.c:68-266 | over two byte streams, encrypted or not and in pieces of any size: up to a restart in the middle of a file there is no protocol error, a file being taken holds its first bytes_received bytes, and an M_GOT on its way means a complete identical copy unless the receiver had it or lost its own |
| `Zmodem.CheckIsDivision` | source/bforce/prot_zmmisc.c:569-623 | updcrc16 over a message and two zero bytes is bit-serial division by 0x1021 |
| `Zmodem.CheckBytesCheck` | source/bforce/prot_zmmisc.c:650-802 | for every message the check bytes pass the receiver's test, 16 and 32 bits |
| `Zmodem.EscapedAre` | source/bforce/prot_zmmisc.c:1092-1130 | the bytes escaped, as explicit sets: always the seven of the C table, all control characters if so asked, and CR, with either parity, behind an @ in any case |
| `Zmodem.FlipIs` | source/bforce/prot_zmmisc.c:225-271 | and what is sent for them behind the ZDLE |
| `Zmodem.ByteHeard` | source/bforce/prot_zmmisc.c:272-345 | a byte that does not come back goes by unnoticed: the reader returns what follows it |
| `Zmodem.ByteArrives` | source/bforce/prot_zmmisc.c:272-345 | for all settings of both ends, whatever was sent before, zdlread returns a byte and consumes exactly its text if and only if the receiver is not strict, the sender escapes it, or it is printable |
| `Zmodem.SubpacketArrives` | source/bforce/prot_zmmisc.c:569-802 | every subpacket within the length limit comes back with its bytes, their number and its frame end, with either check, if and only if every byte of data and check does |
| `Zmodem.XonDropped` | source/bforce/prot_zmmisc.c:569-623 | the XON behind ZCRCW goes by unseen |
| `Zmodem.StreamArrives` | source/bforce/prot_zmmisc.c:644-802 | a run of subpackets arrives in order |
| `Zmodem.ZmodemSender.constructor` | source/bforce/prot_zmmisc.c:1092-1130 | nothing sent, the table of the right setting |
| `Zmodem.ZmodemSender.InitTable` | source/bforce/prot_zmmisc.c:1092-1130 | the table gives every byte its class |
| `Zmodem.ZmodemSender.SendLine` | source/bforce/prot_zmmisc.c:383-426 | the table, rebuilt when the setting changes, and Z_Lastsent give the text of ByteArrives, the CR behind an @ included |
| `Zmodem.ZmodemSender.SendBytes` | source/bforce/prot_zmmisc.c:569-623 | a run of bytes |
| `Zmodem.ZmodemSender.SendData` | source/bforce/prot_zmmisc.c:569-623 | puts the text of SubpacketArrives on the line |
| `Zmodem.ComputeCheck` | source/bforce/prot_zmmisc.c:569-623 | the running check ends in the bytes of CheckBytesCheck |
| `Zmodem.ZmodemReader.constructor` | source/bforce/prot_zmmisc.c:644-648 | a reader before its first byte |
| `Zmodem.ZmodemReader.ReadByte` | source/bforce/prot_zmmisc.c:272-345 | both loops of zdlread, on every input |
| `Zmodem.ZmodemReader.ReadEscaped` | source/bforce/prot_zmmisc.c:303-345 | the second loop, with five further CANs as abort |
| `Zmodem.ZmodemReader.ReadEnd` | source/bforce/prot_zmmisc.c:650-802 | frame end, check bytes, and a frame end that interrupts them |
| `Zmodem.ZmodemReader.ReadData` | source/bforce/prot_zmmisc.c:650-802 | fills the buffer with the data of SubpacketArrives and counts it, never beyond length + 1 |
| `DaemonTables.Scheduler.constructor` | source/bforce/daemon.c:855-877 | nothing queued, nobody called |
| `DaemonTables.Scheduler.BranchExists` | source/bforce/daemon_branch.c:27-36 | true exactly if some branch has the address |
| `DaemonTables.Scheduler.BranchExit` | source/bforce/daemon_branch.c:53-67 | the child's branch waits with its exit code, and no other changes |
| `DaemonTables.Scheduler.FirstWaiting` | source/bforce/daemon_branch.c:69-78 | the first waiting branch or -1 |
| `DaemonTables.Scheduler.GetSysEntry` | source/bforce/outb_sysqueue.c:126-149 | the entry of the address, added at the end if there is none |
| `DaemonTables.Scheduler.ResetQueue` | source/bforce/outb_sysqueue.c:85-98 | what the outbound says is forgotten, and nothing else |
| `DaemonTables.Scheduler.RescanQueue` | source/bforce/daemon.c:661-693 | reset, scan and sweep, in place |
| `DaemonTables.Scheduler.Collect` | source/bforce/outb_sysqueue.c:151-260 | the scan's findings are added to their systems |
| `DaemonTables.Scheduler.CanCall` | source/bforce/daemon.c:279-374 | true exactly if the system is neither busy nor being called and may be called now |
| `DaemonTables.Scheduler.Search` | source/bforce/daemon.c:376-417 | one of the two loops of daemon_getnext |
| `DaemonTables.Scheduler.Next` | source/bforce/daemon.c:376-417 | both loops search the queue in the order from behind the current entry round to it |
| `DaemonTables.Scheduler.QueueDo` | source/bforce/daemon.c:583-643 | one turn of a queue over the tables, as TurnOutcome describes it |
| `DaemonTables.Scheduler.PurgeSystem` | source/bforce/daemon.c:695-746 | with unique addresses, the system that was served leaves the queue, no other does, and the order stays |
| `DaemonTables.Scheduler.RemoveWaitingBranches` | source/bforce/daemon.c:695-746 | ends with no branch waiting |
| `DaemonRun.CursorsFollow` | source/bforce/daemon.c:645-659 | after a removal each cursor is -1 if its entry was the one removed, and otherwise names the same system |
| `DaemonRun.RescanLeavesNoEmpty` | source/bforce/daemon.c:681-686 | a rescan leaves no empty entry if and only if no two empty entries were neighbours |
| `DaemonRun.SweptIsKept` | source/bforce/daemon.c:681-686 | which entries the removal loop leaves |
| `DaemonRun.PurgedIsGone` | source/bforce/daemon.c:695-746 | the removal of the system that was served leaves no entry of its address and removes no other |
| `DaemonRun.CallKeeps` | source/bforce/daemon_call.c:80-133 | a call keeps the invariant and leaves the queue alone |
| `DaemonRun.SelectKeeps` | source/bforce/daemon.c:419-434 | so does choosing the next system |
| `DaemonRun.ReapKeeps` | source/bforce/daemon.c:695-746 | so does removing the branches that have ended, which leaves none waiting |
| `DaemonRun.RescanKeeps` | source/bforce/daemon.c:661-693 | so does a rescan, failed ones included |
| `DaemonRun.TakeKeeps` | source/bforce/daemon.c:880-1010 | every step of the main loop keeps the invariant |
| `DaemonRun.RunInvariant` | source/bforce/daemon.c:880-1010 | after every run: addresses in queue and branch table are unique, an entry is busy exactly if a cursor points at it, the cursors differ, and the client counters are the numbers of branches by kind |
| `DaemonRun.RunWithinLimits` | source/bforce/daemon_call.c:80-133 | with limits unchanged, the clients of a kind never exceed a positive limit |
| `DaemonRotation.ScanFinds` | source/bforce/daemon.c:376-417 | the scan returns the first urgent system that may be called, else the first ordinary one |
| `DaemonRotation.SelectPicks` | source/bforce/daemon.c:419-434 | an ordinary system is chosen only if no urgent one may be called; either way it is the nearest behind the cursor; none only if nobody may be called |
| `DaemonRotation.PickIsNearest` | source/bforce/daemon.c:376-417 | no system that may be called lies between the cursor and the one chosen |
| `DaemonRotation.SelectsRotate` | source/bforce/daemon.c:376-434 | with callability fixed, repeated choices go round the urgent systems, or round the ordinary ones if no urgent one can be called |
| `DaemonRotation.RoundRobin` | source/bforce/daemon.c:376-434 | from a system back to itself no other is chosen twice and every one that may be called is chosen |
| `DaemonRotation.ChosenIsIdle` | source/bforce/daemon.c:376-434 | the system chosen is not being called |
| `DaemonRotation.TurnOutcome` | source/bforce/daemon.c:583-643 | for every state and all luck: without a cursor the next system is chosen; a turn stays where it is exactly if the system is not due, or is not being called and either its kind is at a positive limit or, not being locked, finds no free port or no process; a locked one is passed over with no branch added; a call that starts adds its branch, not waiting, with address, process and kind, counts one client more of that kind and none of the other, and the system called is not the one chosen next |
| `DaemonRotation.SelectLeaves` | source/bforce/daemon.c:419-434 | choosing the next system changes nothing but the cursor and the marks of the queue |
| `DaemonOutcome.Chosen` | source/bforce/daemon.c:279-434 | the system chosen is not at the other queue's cursor, has no branch, may be called now, and has something immediate, crash, direct or normal to get; it becomes busy, and is called by the line its entry in the list names, if any |
| `DaemonOutcome.NobodyBefore` | source/bforce/daemon.c:376-434 | if a system with immediate or crash mail may be called, such a one is chosen, and if any system may be called, somebody is |
| `DaemonOutcome.ScanGains` | source/bforce/outb_sysqueue.c:126-260 | after a scan every entry has the flags it had and those of the files found for its system, and no others; systems without an entry are added behind, and nobody else is |
| `DaemonOutcome.RescanFinds` | source/bforce/daemon.c:661-693 | so after a rescan the flags are exactly what the outbound gives; busy marks, lines and places stay, and a scan that fails removes nobody |
| `DaemonOutcome.EmptyIsUnfound` | source/bforce/daemon.c:676-686 | the entries to be removed are exactly those for which nothing has been found |
| `DaemonOutcome.ChildEnds` | source/bforce/daemon_branch.c:53-67 | the first branch with the child's pid waits with its code, and no other changes |
| `DaemonOutcome.ReapLeaves` | source/bforce/daemon.c:695-746 | clearing away ended sessions leaves exactly the branches that are still running and the systems with no session that ended with code 0, both in their order |
| `ExpressionParser.ParserEvaluates` | source/bforce/expression.tab.c:999-1310 | for every token sequence the machine stops; it accepts exactly the expressions of the recursive grammar, with their value: binary operators all of one level and to the right, NOT over all that follows |
| `ExpressionParser.ExpressionRuns` | source/bforce/expression.tab.c:407-479 | from every state in which an expression may begin, with any stack below, the tables lead to one more frame with its value, or nowhere |
| `ExpressionParser.ListRuns` | source/bforce/expression.tab.c:1253-1290 | the same for lists of flags and times |
| `ExpressionParser.LongListsAreTrue` | source/bforce/expression.tab.c:1260-1284 | a list of two or more entries is true whatever they are |
| `ExpressionParser.ListsAsMeant` | source/bforce/expression.tab.c:1260-1284 | a list that can be evaluated has the value of the disjunction of its entries' checks if and only if it has one entry or some entry is true |
| `ExpressionParser.ExpressionTruth` | source/bforce/expression.tab.c:1534-1553 | a value is true, false or unknown, never invalid |
| `ExpressionMeaning.ValueIsMeaning` | source/bforce/expression.tab.c:999-1310 | the value of an expression is its meaning, read off its tree in booleans: operators combine what is known to be true, with what is unknown as false, NOT holds only of what is known to be false, a relation needs its number to be known; it has no value if and only if it is not well formed or an address, or the last time of a list, is invalid |
| `ExpressionMeaning.LogicJoins` | source/bforce/expression.tab.c:1534-1553 | AND, OR and XOR are the boolean operators on what is known to be true |
| `ExpressionMeaning.CompareRelates` | source/bforce/expression.tab.c:1567-1582 | the six comparisons are those of integers, and unknown without a session or a speed |
| `ExpressionMeaning.FlaglessIsFact` | source/bforce/expression.tab.c:1502-1532 | what is known of a session in its four flags |
| `ExpressionMeaning.NegateNegates` | source/bforce/expression.tab.c:1114-1123 | NOT is true of what is false and of nothing else |
| `ExpressionStacks.StepDepth` | source/bforce/expression.tab.c:925-986 | stack and tokens to come never grow together, so the stacks hold at most one frame a token and one more |
| `ExpressionStacks.YyParser.constructor` | source/bforce/expression.tab.c:860-917 | the stacks of a parser before its first token |
| `ExpressionStacks.YyParser.Push` | source/bforce/expression.tab.c:925-986 | the frame goes onto the stacks, which are moved to larger ones when they are full, with all that is on them, up to YYMAXDEPTH |
| `ExpressionStacks.YyParser.Parse` | source/bforce/expression.tab.c:840-1490 | over stacks that grow in place, terminates on every input: 2 only for at least YYMAXDEPTH - 1 tokens, otherwise 0 and the value of the recursive reading if it has one, and 1 if not |
| `Glob.MatchesIsMeant` | source/bforce/u_misc.c:122-179 | for all strings and masks: every star but a trailing one is an ordinary star, one star at the end needs a character, several at the end match nothing |
| `Glob.OrdinaryMasks` | source/bforce/u_misc.c:122-179 | a mask that does not end in an unescaped star matches as usual |
| `Glob.TokensFirst` | source/bforce/u_misc.c:122-179 | a backslash makes any character stand for itself, one at the end of the mask stands for itself too, and of the others only ? and * are special |
| `Glob.StarAtTheEndDiffers` | source/bforce/u_misc.c:122-179 | every mask that does differs from usual matching for some string |
| `Glob.SkipAhead` | source/bforce/u_misc.c:156-164 | the rests skipped because of their first character could not have matched |
| `Glob.StrCaseMask` | source/bforce/u_misc.c:122-179 | the loop with its recursion terminates and decides matching by trying every non-empty rest |
| `Glob.TryRests` | source/bforce/u_misc.c:154-168 | the loop behind a star finds a matching rest if there is one |
| `Glob.SkipStarsIn` | source/bforce/u_misc.c:155-156 | runs of stars are passed over |
| `Emsi.AddStr` | source/bforce/prot_emsi_misc.c:43-78 | the string is appended with brackets and braces doubled and other bytes escaped |
| `Emsi.TakeField` | source/bforce/prot_emsi_misc.c:378-426 | the destructive parser returns field and rest as positions in the packet and changes nothing behind the field |
| `Emsi.Shift` | source/bforce/prot_emsi_misc.c:390-426 | characters move left over the escapes, the text still to be read stays |
| `Emsi.HexDigitsAre` | source/bforce/prot_emsi_misc.c:399-415 | the hexadecimal digits, in either case, and their values |
| `EmsiNesting.OuterReads` | source/bforce/prot_emsi_misc.c:378-426 | the outer reading undoes one doubling of a good text and leaves the inner one |
| `EmsiNesting.InnerReads` | source/bforce/prot_emsi_misc.c:378-426 | the inner reading undoes the other |
| `EmsiNesting.FieldExactly` | source/bforce/prot_emsi_misc.c:43-78 | any text written into a field in braces is read as it is meant to be if and only if it is good, that is: no backslash is followed by a second one, a byte that cannot be printed or exactly two hexadecimal digits, and a byte that cannot be printed is below 10 and not followed by a hexadecimal digit |
| `EmsiNesting.NestedExactly` | source/bforce/prot_emsi_misc.c:233-263 | a list of texts that fit their fields, written as fields inside a field, is read back if and only if all of them are good, whatever brackets and braces they contain |
| `EmsiNesting.ByteExactly` | source/bforce/prot_emsi_misc.c:62-73 | a single byte comes back if and only if it is below 10 or printable, so bytes from 127 do not |
| `EmsiIdent.IdentExactly` | source/bforce/prot_emsi_misc.c:559-576 | IDENT, with its speed as a number of 32 bits, comes back if and only if its texts are good and fit |
| `Decimal.ShowRead` | source/bforce/prot_emsi_misc.c:253-256 | a number written in decimal is read as that number, up to the first character that is not a digit |
| `Md5.PaddingLimit` | source/bforce/u_md5.c:219-261 | what is stored as padding is that of sections 3.1 and 3.2 of RFC 1321 if and only if the message is shorter than 2^29 bytes |
| `Md5.FoldConcat` | source/bforce/u_md5.c:225-230 | hashing whole blocks in pieces hashes the whole |
| `Md5.Md5State.constructor` | source/bforce/u_md5.c:72-80 | the initial words of section 3.3 of RFC 1321 |
| `Md5.Md5State.Update` | source/bforce/u_md5.c:92-205 | after a block, the words are those of all blocks taken so far, and their number is known |
| `Md5.Md5State.Compute` | source/bforce/u_md5.c:219-261 | after any whole blocks, the digest of the whole message with its padding |
| `Md5.Md5State.Finish` | source/bforce/u_md5.c:232-260 | the scratch buffer, one block or two |
| `Md5.Get` | source/bforce/u_md5.c:263-269 | the digest of one message |
| `Md5.HashesAgree` | source/bforce/u_md5.c:219-261 | below 2^29 bytes it is MD5 of RFC 1321 |
| `Md5.WordBytesAre` | source/bforce/u_md5.c:253-260 | the digest holds each word least significant byte first |
| `Md5.BytesAre` | source/bforce/u_md5.c:253-260 | and the four words in their order |
| `Md5.KeyPads` | source/bforce/u_md5.c:311-320 | the secret filled up, combined with ipad and opad |
| `Md5.CramGet` | source/bforce/u_md5.c:290-335 | the two passes compute the keyed hash for secrets of every length |
| `Md5.CramIsHmac` | source/bforce/u_md5.c:290-335 | which is HMAC-MD5 of section 2 of RFC 2104 for every secret and challenge within the limit |

## Left out

- HydraOutcome.SuccessIsTrue: one direction only. That a SUCCESS which overrules a refusal may still
  be true is shown by the run of OverruledButTrue, and that it may not by LateRefusal.
- HydraOutcome.CommitAgreement: for one file in each direction; a duplicate FINFO of a larger
  batch can draw a FINFOACK that applies to the next file.
- HydraOutcome.PrefixSafety: a partial file that an earlier session has left is taken to be a
  prefix of the file offered; the code compares name, size and time only.
- HydraTransparency.LinkTransparent: both ends use the same options. Packets that depend on them
  are sent only after both have been set (OptionsInStep), and two stations of this program set
  them alike (SameOptions).
- HydraRecovery.Recovers: the transfer in the other direction waits, and neither side has used up its last try.
  Continuations are shown to exist; that timers fire and the line delivers in the end is not part of the model.
- HydraSessions.SessionCompletes: one file in one direction, while the other station has none to send.
- HydraRetries.WindowFills: this program agrees on no window (RunTames), other programs may.
- HydraInit.InitRoundTrip: a number that `sscanf` would read with blanks, a sign or 0x before it
  is not read; no station writes one.
- HydraInit.SameOptions: for the options this program offers; other programs may offer others,
  which Negotiated and Compatible take into account.
- HydraPackets.PayloadRoundTrip: DATAACK, EOF and FINFOACK packets of fewer than four bytes are
  dropped where the code reads what an earlier packet left in the buffer.
- HydraPackets.RunIsPortable: `long` is taken as 32 bits and two's complement, which the
  sentinels -1 and -2 depend on.
- HydraLink.HydraInfo.DecodeBlock: two characters past the end of `iencbuf` itself, for an
  ill-formed HEX block that fills it, are read as 0.
- HydraQueue.HydraOutput.QueuePkt: the byte that the UUE encoder reads behind a block is
  whatever the buffer holds there, and is named in the contract as a ghost result.
- HydraQueue.DrainedIsDelivered: for a queue past which nothing has been put on the line; with the
  string of HTX_START it is HeardInOrder and NothingLost.
- HydraStation.HydraStation.Turn: the variables of each side (`pi->send` and the `tx` variables,
  `pi->recv` and the `rx` variables) are kept in one record-valued field a side, and what a packet does
  to them is a function on such records; queues, buffers and the line are arrays and sequences
  updated in place. Timers, CPS and session limits are inputs that may fire in any turn.
- HydraPair.PairIsSafe: for runs in which every packet heard has been sent; on a line that damages
  bytes, a packet whose check comes out right by chance ends the statement.
- HydraLine.HydraLine.TurnOfA: for files below 2^31 bytes and up to turn 2^31 - 101, because offsets and
  the ids of resend requests are 32 bits; likewise TurnOfB. Both ends are this program.
- HydraLine.HydraLine.DrainOfA: the exit with an error when the closing loop fails is not a turn; it is
  in the contract of Batch.
- Hydra: DEVDATA, packet prefixes, batches of several files, `hydra()` around the batches.
- BinkpFrames.ChunkingIrrelevant: up to a batch restart that makes the reader lose its place (Restart
  says when); likewise BlocksArrive.
- BinkpLine.BytesInStep: for one file of less than 2^31 bytes whose name holds no blank or slash;
  M_FILE, M_GET, M_GOT, M_SKIP and M_EOB are the only messages, and name this file.
- BinkpEnds.ReceivingEnd.Listen: the variables of the transfer are a record-valued field, and what a
  message does to them is a function of `BinkpResume`; likewise SendingEnd.Listen.
- BinkpInStep.GotMeansDelivered: says nothing about the end of a session, because `waiting_got`
  can be cleared while the current file is still being sent.
- BinkpDelivery.Delivered: a run is shown to exist; the transfer in the other direction is silent in it.
- BinkpInStep.NoProtocolErrors: for one file in one direction; the transfer in the other direction
  appears as steps that occupy the message slot and as batch counters that may advance at any time.
- BinkpInStep.RunInvariant: the state of a batch restarted in mid-file is followed only to the
  first error.
- BinkP: the handshake and its messages, passwords and addresses, the netspool, hangs in NR mode
  when M_GET never comes.
- BinkpCrypt.KeyByteIs: integers modulo 2^32 are bit vectors here; products are restated as sums of shifts
  and as products of neighbours, not as products of integers.
- BinkpCrypt: `unsigned long` is taken as 32 bits; wider words change no byte of the output.
- Zmodem.SubpacketArrives: timeouts, a hung-up line and 7-bit reading appear as the end of the
  input.
- Zmodem: header frames, and the sender and receiver on top of the link layer.
- ExpressionParser.ParserEvaluates: the lexer and the checks of elements are parameters.
- ExpressionMeaning.ValueIsMeaning: for checks that answer from -2 to 1, -2 only for addresses and times, and
  tokens whose kinds are positive numbers.
- ExpressionStacks.YyParser.Parse: memory for larger stacks is always found.
- Expression: XOR is modelled on operands 0 and 1, which ExpressionTruth shows to be the only ones
  once negative ones are replaced.
- DaemonTables.Scheduler.CanCall: the checks of time, nodelist, overrides and the choice of lines are one
  verdict a system, given from outside; the hold and retry marks that `daemon_process_rc` sets on
  a system are part of that verdict.
- DaemonRun.RunInvariant: signals and the ends of children are steps between the others; `fork` succeeds or
  fails as an input.
- DaemonRun.RunWithinLimits: does not extend over a restart, which may read lower limits while
  clients are running.
- Daemon: the order in which `out_sysqueue_sort` puts the queue, statistics, pid file, log.
- Glob: upper case is that of the C locale.
- EmsiNesting.NestedExactly: texts contain no NUL, which ends a string in C; printable bytes are 32
  to 126, as in the C locale.
- EmsiIdent.IdentExactly: speeds are those of a 32-bit `int`.
- Md5: the compression function of RFC 1321, section 3.4, is a parameter.
- Md5.PaddingLimit: lengths of 2^61 bytes and more, for which the 64-bit length itself wraps around.
- Md5.CramIsHmac: one direction only; beyond the limit the padding differs, but for some compression
  function the digests may still agree.
- Sockets, serial ports, modems, `fork` and `exec`, lock files, configuration, nodelists, FREQ
  processing, YooHoo and session initiation.
