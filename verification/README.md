# Firmware protocols and state machines in Dafny

The bike's firmware is a set of small controllers that talk over CAN, SPI, BLE and serial lines. This
project models the parts of it that carry protocols, schedules and state machines, and proves what
they keep over runs of any length.

Code that updates fields and buffers in place is modelled by classes with loops and frames. Each
method is proved against a value-level specification of its new state, and the theorems are about runs
of those specifications, so that they hold of the methods. Reads of sensors, pipes, flash and
vendor queries are inputs of a step.

| file | what it covers |
|---|---|
| `FragmentTransport.dfy`, `FragmentInterleaving.dfy`, `WholeWrites.dfy` | cutting attribute writes into 13-byte frames, and reassembling any interleaving of them in three shared slots |
| `BleLink.dfy` | the window, refill and re-emission loop between BLE chip and main controller |
| `ReadyTable.dfy`, `Scheduler.dfy` | the bridge's priority table, its watermark and the three routines that share it |
| `FlashUpload.dfy`, `FlashStatus.dfy` | the chunked upload of an image into NOR flash, and what its answers mean |
| `Crc16.dfy`, `Slip.dfy`, `SerialFifo.dfy` | the serial link: error detection, framing, receive ring |
| `ChargeProfile.dfy`, `Charger.dfy`, `ChargerRuns.dfy`, `ChargerWaits.dfy`, `ChargerOutputs.dfy` | the charger's divisor search and its charge state machine |
| `BridgeRing.dfy` | the bridge's byte and record ring |
| `PositionLog.dfy`, `GearDrive.dfy`, `WrapTracker.dfy` | the e-shifter's wear-levelled position page, motor phase machine and shaft tracker |
| `SoftTimer.dfy` | the motor controller's sixteen software timers |
| `LockDebounce.dfy` | the e-lock's debounce, commit and alarm arming |
| `Ring.dfy`, `Memory.dfy` | circular windows, machine words and block copies |

## Where code and comments disagree

The model follows the code.

- `motor_sensor/src/util.c:123` calls the eviction "LRU"; the slot taken is always slot 0. Either way a
  message is lost, so the theorem says exactly when eviction happens.
- `charger/src/charge.c:41-42` documents the setpoint window as a range of the raw value; the code tests
  only its low 16 bits. `Charger.PrimaryOutsideRange` is an accepted value outside the range. The state
  machine itself only passes 16-bit readings, for which the two agree.
- `charger/src/profile.c:102-104` keeps 16 bits of the quotient, so that an unusable multiplier can pass.
  `ChargeProfile.SearchIsRightExactly` gives the exact condition for every base and total: no multiplier
  whose quotient exceeds 65536 passes the checks before the loop stops above it. `ChargeProfile.WordWraps`
  is a total for which this fails; up to 65536 times 3 times the base it always holds.
- `charger/src/state.c:96` documents the raw setpoint of profile 2 without its truncation to 16 bits. The
  867 lowest accepted readings leave that width (`ChargerRuns.RawExactly`).
- `charger/src/fsm_step.c:48-52` forces the presence substate without clearing the counter, so answers
  counted on the other side carry over. `ChargerRuns.FlipIsUnanimous` says exactly when the hundred
  answers of a flip are all equal, and `ChargerRuns.MixedFlip` is a run in which they are not.
- `charger/src/fsm_step.c:67-72` runs the dispatcher into state 1 even from state 1, which costs the ready
  steps counted there. `ChargerWaits.ReadyStepsLeave` says exactly when 101 ready steps leave state 1, and
  `ChargerWaits.FlippedWait` is a run in which they do not.
- State 5 can be left for state 2 without clearing the state counter, by a teardown
  (`charger/src/state.c:60-65`) and at the limit while a measurement is present
  (`charger/src/fsm_step.c:185-194`), which shortens the wait in state 2. `ChargerWaits.FullWaitExactly` says
  that the wait is a full hundred steps exactly if the counter is zero on entry, `ChargerWaits.EntryCarries`
  what every way into state 2 brings along, and `ChargerWaits.ChargesAgainAtOnce` is the worst case.
- `ble/src/spi_bridge.c:142-164` arms the same receive slot again after an empty transfer, but then reads the
  other one. `BleLink.ReadWhereItArrived` says exactly when a pass reads the slot its transfer arrived in.
- `eshifter/src/can.c:155-157` compares a raw position with the position read back, which is the raw
  value less 0x8000. The dead band therefore lies half the range away from the value just stored
  (`PositionLog.RefusedExactly`), and a repeated position is stored again (`PositionLog.RepeatIsStored`).
- `eshifter/src/can.c:66-71` ignores the result of the retry, and `eshifter/src/can.c:102-103` resets the
  context when the read back fails. `PositionLog.UpdateExactly` gives both exact conditions for one update:
  the page gets a second live slot exactly when the wrap clear is lost and the following write stores a
  value other than 0xFFFF; the context falls out of step exactly then, or when a failed read back would
  have found a slot. `PositionLog.FailedReadLeavesTwo` shows how the second case leads to two live slots.
- `eshifter/src/gear.c:161-165` waits for a reverse flag that this code only ever clears, while
  `eshifter/src/gear.c:197-200` sets the forward flag itself: a reversal to forward takes two steps, one to
  backward lasts until other code sets the flag (`GearDrive.ForwardExactly`, `GearDrive.BackwardExactly`).
- `imx8_bridge/src/ring_buf.c:115-125` stores the length header of an empty record and then spins in the
  zero-length trap (`BridgeRing.StuckExactly`).

## Model

| member | source | states |
|---|---|---|
| `FragmentTransport.Chunker.WriteChunked` | imx8_bridge/src/spi_frame.c:71-93 | The frames handed to the write function are the payload's 8-byte chunks in order, each carrying the id, its own length and the next sequence number; an empty payload, or no resume, sends one empty frame. |
| `FragmentTransport.Chunker.TxFrameSend` | imx8_bridge/src/spi_frame.c:26-63 | A session becomes one flagged inline frame in mode 0, or its chunks in mode 1 (flagged) and mode 2 (not); any other mode sends nothing and is refused. |
| `FragmentTransport.NextSequenceCounts` | imx8_bridge/src/spi_frame.c:88-91 | The masked increment counts frames modulo 16 in mode 2 and modulo 8 otherwise, without touching the flag bits above, from any starting value. |
| `FragmentTransport.ChunkAt` | imx8_bridge/src/spi_frame.c:77-92 | Chunk k is bytes 8k up to 8k+8 or the end, so the chunks tile the payload. |
| `FragmentTransport.Reassembler.Claim` | motor_sensor/src/util.c:113-130 | The slot is the id's own with what it gathered, else the first free one, else slot 0 taken from its owner, and only that is diagnosed; the other slots keep owner and bytes. |
| `FragmentTransport.Reassembler.Append` | motor_sensor/src/util.c:137-140 | The bytes go behind what the slot holds, and the other two 64-byte areas are unaffected. |
| `FragmentTransport.Reassembler.Complete` | motor_sensor/src/util.c:141-145 | Once the entry's length is gathered the handler gets exactly the gathered bytes and the slot is freed; before that nothing happens. |
| `FragmentTransport.Reassembler.AssembleFragment` | motor_sensor/src/util.c:106-148 | One fragment: claim, overflow check with release and failure, append, completion, with the diagnostics in that order. |
| `FragmentTransport.Reassembler.Dispatch` | motor_sensor/src/util.c:82-159 | Routing by entry type, failure for unknown ids and types and for overflow, and an acknowledgement exactly for flagged or fragmented writes that succeed. |
| `FragmentInterleaving.ChunksComplete` | motor_sensor/src/util.c:131-146 | The chunks of the rest of a message complete it once, at its last chunk, with exactly its bytes. |
| `FragmentInterleaving.ChunkedStream` | motor_sensor/src/util.c:131-146 | One id alone: the chunks of any list of messages of the entry's length give back exactly that list and end idle. |
| `FragmentInterleaving.EvictionIsCrowding` | motor_sensor/src/util.c:118-126 | While slots mirror the streams, a fragment evicts exactly when its id would be a fourth one mid-message. |
| `FragmentInterleaving.FragmentMirrors` | motor_sensor/src/util.c:106-147 | A fragment that finds room is added to its own id's bytes, and slots and streams stay in step for all ids. |
| `FragmentInterleaving.UncrowdedRun` | motor_sensor/src/util.c:82-159 | In any interleaving in which no fragment is crowded out, every id is served as if it had the reassembler to itself. |
| `FragmentInterleaving.EvictionExactly` | motor_sensor/src/util.c:118-126 | A run evicts a slot if and only if some fragment made a fourth id mid-message. |
| `FragmentInterleaving.OverflowExactly` | motor_sensor/src/util.c:133-137 | Without crowding, the overflow diagnostic appears if and only if some id's own stream outgrows 64 bytes. |
| `FragmentInterleaving.Interleaved` | motor_sensor/src/util.c:106-147 | Any interleaving without crowding: an id whose fragments are a cut of messages of its entry's length gets exactly those messages, in order. |
| `FragmentInterleaving.ChunkerStream` | imx8_bridge/src/spi_frame.c:71-93 | The chunker's frames for a message are, to the receiver, that message's chunks. |
| `FragmentInterleaving.Delivered` | motor_sensor/src/util.c:82-159 | End to end: if an id's frames, amid any other traffic, are what the chunker wrote for a list of messages, its handler is called once per message, in order, with those bytes, and no slot is evicted. |
| `WholeWrites.WholeWritesServed` | motor_sensor/src/util.c:95-105 | In every run, a plain id's handler is called once for each of its frames with that frame's payload, a notification's queue is signalled once for each, and exactly the flagged frames are acknowledged. |
| `WholeWrites.FragmentAcked` | motor_sensor/src/util.c:131-158 | A fragment is acknowledged and succeeds if and only if it fits its slot's 64 bytes. |
| `WholeWrites.StrangersRefused` | motor_sensor/src/util.c:91-93 | A write to an unknown id or type is refused and leaves no trace. |
| `WholeWrites.TransmissionFlags` | imx8_bridge/src/spi_frame.c:41-56 | Every frame of modes 0 and 1 asks for an acknowledgement and none of mode 2 does, whatever its place in the sequence. |
| `BleLink.Task.constructor` | ble/src/spi_bridge.c:120-124 | The link starts with nothing pending, a zero echo and slot 0. |
| `BleLink.Task.Acknowledge` | ble/src/spi_bridge.c:163-232 | A received frame drops exactly what it acknowledges from the front of the payload, keeps the rest in order, and sets the echo to the CRC of a sound data frame or to zero. |
| `BleLink.Task.Slide` | ble/src/spi_bridge.c:218-222 | The in-place move keeps the unacknowledged bytes in order although source and target overlap. |
| `BleLink.Task.Check` | ble/src/spi_bridge.c:171-179 | A data frame is accepted if and only if marker and CRC are in place, and only then is its CRC echoed. |
| `BleLink.Task.TopUp` | ble/src/spi_bridge.c:230-241 | The pipe is read into exactly the free space behind the kept bytes, which stay as they are. |
| `BleLink.Task.Emit` | ble/src/spi_bridge.c:243-255 | The frame that goes out passes the same check that received frames must pass, and still holds its payload and echo. |
| `BleLink.Task.Pass` | ble/src/spi_bridge.c:141-263 | One pass: slide, refill, close, toggle; the offered frame fits the 0x7DE-byte buffer whatever arrived, and a transfer of length 0 changes nothing. |
| `BleLink.PassExactly` | ble/src/spi_bridge.c:214-241 | In bytes of the frame: a window frame drops exactly the number in its second and third byte, up to all there is, unless it exceeds 0x7DE; any other frame drops nothing; and the rest is followed by all of the pipe, or by what fits in 0x7CA bytes. |
| `BleLink.EchoExactly` | ble/src/spi_bridge.c:171-179 | The echo field is the CRC of a data frame with marker and CRC in place, zero for one without, and unchanged by other frames. |
| `BleLink.Conserved` | ble/src/spi_bridge.c:163-262 | In every run, bytes dropped followed by bytes pending equal, in order, all bytes read from the pipe, and at most 0x7CA are pending. |
| `BleLink.ReadWhereItArrived` | ble/src/spi_bridge.c:142-164 | In every run, a pass reads the slot that its transfer arrived in if and only if the transfer before was not empty. |
| `ReadyTable.RotateIsQueueStep` | imx8_bridge/src/can_session.c:253-262 | Advancing the index pointer over the sentinel picks the head of the level's queue and sends it to the back. |
| `ReadyTable.InsertIsEnqueue` | imx8_bridge/src/can_session.c:188-191 | Insertion at the index pointer queues a newcomer behind all that wait, ahead only of the one that ran last. |
| `ReadyTable.RemoveIsDequeue` | imx8_bridge/src/can_session.c:188-191 | Unlinking takes a session out of the queue and changes nobody else's place, even when the index pointer stood on it. |
| `ReadyTable.RotationsAt` | imx8_bridge/src/can_session.c:253-262 | The k-th pick is the k-th in the queue. |
| `ReadyTable.RoundRobin` | imx8_bridge/src/can_session.c:253-262 | As many picks as a level has sessions pick each of them exactly once. |
| `Scheduler.Bridge.FileSession` | imx8_bridge/src/can_session.c:188-191 | The session leaves its place, is queued on its level, and the watermark rises to that level if it was lower. |
| `Scheduler.Bridge.RxComplete` | imx8_bridge/src/can_session.c:169-201 | A waiting session is filed, or put on the overflow list under the lock; a wake is asked for exactly when it outranks the running one; a session already on the overflow list ends in the trap. |
| `Scheduler.Bridge.TxComplete` | imx8_bridge/src/can_session.c:208-233 | The same without regard to the lock, and with the trap only after filing. |
| `Scheduler.Bridge.TableAdvance` | imx8_bridge/src/can_session.c:240-270 | Deferred under the lock; else the search from the watermark finds the highest occupied level, turns its ring and lowers the watermark to it, or ends in the trap. |
| `Scheduler.ActKeepsInv` | imx8_bridge/src/can_session.c:169-270 | Every step, the draining of the overflow list included, keeps: nothing above the watermark, every filed session once and on its own level, overflow list and link marks in agreement. |
| `Scheduler.FiledOncePerWait` | imx8_bridge/src/can_session.c:179-194 | In every run a session is filed at most once for each time it started to wait, by whichever completion comes first. |
| `Scheduler.CompletionFiles` | imx8_bridge/src/can_session.c:182-194 | A completion of a waiting session really puts it on its list, and gets stuck exactly when it is on the overflow list already. |
| `Scheduler.RepeatedCompletion` | imx8_bridge/src/can_session.c:179-182 | From a session's completion until it waits again, in any run, every further completion of either kind changes nothing and asks for nothing. |
| `Scheduler.OverflowConserved` | imx8_bridge/src/can_session.c:192-194 | In every run each session put on the overflow list is drained once or still there. |
| `Scheduler.DrainFiles` | imx8_bridge/src/can_session.c:187-194 | A drained session leaves the overflow list and is filed on its own level. |
| `Scheduler.CompletionKeepsTopOrAsks` | imx8_bridge/src/can_session.c:195-198 | If the running session outranks all filed ones, then after a completion outside the lock it still does if and only if no wake or yield was asked for. |
| `Scheduler.AdvanceRestoresTop` | imx8_bridge/src/can_session.c:245-269 | An unlocked advance leaves a running session that no filed one outranks, although it searches only from the watermark; it is stuck exactly when the whole table is empty. |
| `Scheduler.LockedAdvance` | imx8_bridge/src/can_session.c:245-248 | Under the lock an advance turns no list and selects nobody, and leaves the wake flag set. |
| `Scheduler.LockHolds` | imx8_bridge/src/can_session.c:187-248 | In every run from a locked state until the lock is released, the running session stays, and once an advance was asked for the wake flag is set. |
| `Scheduler.PicksRotate` | imx8_bridge/src/can_session.c:252-262 | Successive advances turn one ring only, that of the highest occupied level. |
| `Scheduler.EachRunsOnce` | imx8_bridge/src/can_session.c:252-262 | k advances over a level of k sessions run each of them exactly once. |
| `FlashUpload.Handler.OpenRegion` | ble/src/ble_message.c:114-163 | A region opens only when none is open, its name and size are given, the name is known and the size fits; it is erased on opening if its policy says so. |
| `FlashUpload.Handler.WriteBlock` | ble/src/ble_message.c:176-210 | A block goes to its place in the open region, padded to words with what the buffer held before; a bad index leaves flash as it is. |
| `FlashUpload.Handler.StoreBlock` | ble/src/ble_message.c:198-206 | The page is erased by its first block only, and programming clears bits and never sets any. |
| `FlashUpload.Handler.Finish` | ble/src/ble_message.c:212-248 | A mismatch and a malformed request close the region, a match leaves it open; the callback is told which. |
| `FlashUpload.Handler.CommandHandler` | ble/src/ble_message.c:99-281 | Every command with the status it answers, its effect on flash, buffer and open region, and the callback it makes. |
| `FlashUpload.Confined` | ble/src/ble_message.c:148-209 | No command changes a byte outside the region that is open before or after it. |
| `FlashUpload.OpenIsClean` | ble/src/ble_message.c:148-161 | After opening, flash is blank where the first block will land, under either erase policy. |
| `FlashUpload.StoredCells` | ble/src/ble_message.c:198-206 | On clean flash a block takes effect byte for byte, what is ahead of it stays blank, and what is behind it is kept. |
| `FlashUpload.FirstCopy` | ble/src/ble_message.c:176-209 | The next block in order extends the loaded image by itself and leaves the flash ahead clean. |
| `FlashUpload.CopiesAreOne` | ble/src/ble_message.c:176-209 | Sending a block any number of times in a row does what sending it once does, page erase and padding included. |
| `FlashUpload.UploadLoads` | ble/src/ble_message.c:176-209 | After any number of blocks in order, each sent one or more times, the region begins with that part of the image. |
| `FlashUpload.UploadVerifies` | ble/src/ble_message.c:114-245 | A whole session on the region that the name stands for: the region begins with the image and nothing outside it has changed; a verify answers status 0, tells the callback 0 and leaves the region open if and only if the CRC given is the image's, and else tells it 1 and closes. |
| `FlashUpload.NamesExactly` | ble/src/ble_message.c:129-147 | Names that begin with "app_update" stand for the first region, with "fmna_blob" for the second, and no others for any. |
| `FlashStatus.CloseAnswer` | ble/src/ble_message.c:165-174 | A close tells the callback 2 and leaves no region open. |
| `FlashStatus.OthersAreSilent` | ble/src/ble_message.c:113-281 | No command but verify and close calls back. |
| `FlashStatus.ReadAnswer` | ble/src/ble_message.c:250-273 | A read answers with the CRC of the image's blocks that it names. |
| `FlashStatus.OpenStatus` | ble/src/ble_message.c:114-163 | Each status of an open if and only if its cause holds; a refused open changes nothing. |
| `FlashStatus.WriteStatus` | ble/src/ble_message.c:176-210 | Each status of a write if and only if its cause holds; a refused write leaves flash and region alone. |
| `FlashStatus.OtherStatus` | ble/src/ble_message.c:99-281 | The same for verify, read and malformed or unknown requests; a malformed verify closes the region. |
| `FlashStatus.PaddingIsLeftover` | ble/src/ble_message.c:202-206 | Up to a whole word, a short block is followed by what the buffer held before. |
| `FlashStatus.PageIsBlanked` | ble/src/ble_message.c:198-206 | With page-wise erasing, the first block of each eight blanks the 4096 bytes from its start; no other write changes anything behind its block. |
| `Crc16.StepByte` | motor_control/src/comm.c:1079-1090 | The bit loop is eight shifts of the register with the byte mixed in. |
| `Crc16.ComputeBuf` | motor_control/src/comm.c:1038-1050 | The buffer loop folds the step over the first `count` words, from the first on. |
| `Crc16.CrcOfWords` | motor_control/src/comm.c:1038-1050 | Over words that hold a byte each, that is the CRC of the message. |
| `Crc16.ShiftLinear` | motor_control/src/comm.c:1081-1088 | One bit time is linear over exclusive or. |
| `Crc16.CrcIsFeed` | motor_control/src/comm.c:1038-1090 | The bytewise CRC is the bit-serial register run over the message's bits, lowest bit of each byte first. |
| `Crc16.FeedDifference` | motor_control/src/comm.c:1081-1088 | The difference of two runs depends only on the bits in which they differ. |
| `Crc16.BurstLeavesTrace` | motor_control/src/comm.c:1081-1088 | A burst of at most 16 bits leaves a nonzero register, which no number of further zero bits clears. |
| `Crc16.BurstDetected` | motor_control/src/comm.c:1038-1090 | Messages of any equal length that differ only within 16 consecutive bits have different CRCs. |
| `Crc16.AdjacentBytesDetected` | motor_control/src/comm.c:1038-1090 | So do messages that differ only inside two adjacent bytes. |
| `Crc16.OddDamageDetected` | motor_control/src/comm.c:1038-1090 | So do messages that differ in an odd number of bits, anywhere. |
| `Crc16.ResidueExactly` | motor_control/src/comm.c:1038-1090 | The CRC over a payload and two closing bytes is zero if and only if these are its CRC, low byte first. |
| `Crc16.ZeroByte` | motor_control/src/comm.c:1038-1090 | The CRC of a single zero byte is 0x40BF. |
| `SerialFifo.Fifo.Push` | motor_control/src/comm.c:762-777 | A byte joins the end of the ring, or, exactly when the ring holds 128, is lost and flagged; the write index stays at read index plus count. |
| `SerialFifo.Fifo.Drain` | motor_control/src/comm.c:751-779 | The ring takes as many bytes of the FIFO as it has room for, in order, and flags overflow exactly if some were left. |
| `SerialFifo.Fifo.Pop` | motor_control/src/comm.c:985-997 | The oldest byte leaves the ring; an empty ring is left alone. |
| `SerialFifo.NothingLostInside` | motor_control/src/comm.c:751-779 | In every sequence of drains and pops, popped then held bytes are the accepted ones in order, all others are counted as dropped, and the flag says exactly whether any were. |
| `SerialFifo.NothingLostBetween` | motor_control/src/comm.c:762-997 | The same when the interrupt stores bytes between any two statements of a pop: the entry being popped is never overwritten, and nothing is lost or repeated. |
| `SerialFifo.DropsExactly` | motor_control/src/comm.c:764-777 | An arrival is dropped if and only if the ring holds 128 bytes, and nothing else is lost with it. |
| `SerialFifo.EmptyIsLossless` | motor_control/src/comm.c:981-988 | The empty ring with no pop under way is a start of such runs. |
| `Slip.Sender.PutEscaped` | motor_control/src/comm.c:221-230 | The two reserved bytes go out as their two-byte codes, all others as themselves. |
| `Slip.Sender.EncodeSend` | motor_control/src/comm.c:209-251 | The bytes sent are the delimited, escaped low bytes of the words and the CRC over the words, low byte first, escaped as well. |
| `Slip.EncodeOfBytes` | motor_control/src/comm.c:209-251 | For words that hold a byte each, that is the encoded message. |
| `Slip.Receiver.RxByte` | motor_control/src/comm.c:142-200 | The loop decodes the first byte and then the ring up to a frame end and no further; the result tells a completed frame, a bad escape code, and neither apart. |
| `Slip.DecodeAppend` | motor_control/src/comm.c:146-198 | Decoding may be interrupted at any byte and resumed: state, completions and errors compose. |
| `Slip.DecodeEscaped` | motor_control/src/comm.c:158-191 | Unescaping inverts escaping for every payload, and stops storing at the buffer limit. |
| `Slip.DecodeFrame` | motor_control/src/comm.c:148-191 | From idle, one encoded frame is one completion without error and leaves the decoder idle, whatever its length. |
| `Slip.DecodeFrames` | motor_control/src/comm.c:148-191 | Any number of frames in a row: one completion each, in order. |
| `Slip.RoundTrip` | motor_control/src/comm.c:142-251 | Each completed buffer is the payload sent, then its CRC low byte and high byte, and the CRC over that buffer is zero. |
| `Slip.ReservedBytes` | motor_control/src/comm.c:222-230 | The codes are those of RFC 1055: 0xDB 0xDC for 0xC0 and 0xDB 0xDD for 0xDB. |
| `Slip.DelimitersOnlyAtEnds` | motor_control/src/comm.c:209-251 | A frame begins and ends with 0xC0, which occurs nowhere else in it, and every escape byte is followed by a code. |
| `Slip.BadCodeDropsFrame` | motor_control/src/comm.c:187-190 | After a bad escape code the frame is never completed and all bytes up to the next delimiter are ignored. |
| `ChargeProfile.FillDuty` | charger/src/profile.c:106-124 | The duty checks succeed exactly when duty and complement are expressible, and then the frame holds them. |
| `ChargeProfile.Try` | charger/src/profile.c:96-125 | One multiplier: a hit with its frame, a miss, or giving up on a quotient that is too large. |
| `ChargeProfile.ComputeProfile` | charger/src/profile.c:89-131 | The loop returns 1 exactly when the search has a result, and the frame then describes that result. |
| `ChargeProfile.SearchIsRightExactly` | charger/src/profile.c:95-130 | For every base and total, the search finds the largest solution, or nothing only if there is none, if and only if no multiplier with a quotient above 65536 passes the checks before the loop stops above it. |
| `ChargeProfile.StopIsRight` | charger/src/profile.c:96-129 | Giving up at an oversized word loses no solution below it, and a stop is right exactly when it does not mislead. |
| `ChargeProfile.SearchIsComplete` | charger/src/profile.c:95-130 | For totals up to 65536 times 3 times the base the search is right without that condition. |
| `ChargeProfile.ProfileIsRight` | charger/src/profile.c:89-131 | On a hit, base times multiplier times the frame's word plus one is the total if and only if the search was right, and duty and complement share out the multiplier either way. |
| `ChargeProfile.DutyBytes` | charger/src/profile.c:113-124 | Duty and complement bytes share out the multiplier less three, or less 259 above 258. |
| `ChargeProfile.DutyShare` | charger/src/profile.c:106-114 | The duty is 75, 80 or 87.5 percent of the multiplier by the base, rounded down, less one. |
| `ChargeProfile.DutyFitsExactly` | charger/src/profile.c:117-123 | The duty checks pass if and only if the multiplier's low byte less three exceeds the duty byte by 0 to 127. |
| `ChargeProfile.PhaseByte` | charger/src/profile.c:121 | The phase byte plus one is a fifth of the multiplier's low byte, rounded up. |
| `ChargeProfile.WordWraps` | charger/src/profile.c:102-104 | A total for which the search accepts a quotient of 65537 that is no solution. |
| `ChargeProfile.WordExactly` | charger/src/profile.c:97-104 | The frame's word multiplies back to the total if and only if the quotient is at most 65536. |
| `Charger.PrimaryWindow` | charger/src/charge.c:46-57 | A request is accepted if and only if it is zero or its low 16 bits lie in the window; in the documented range the result is the scaled value without truncation. |
| `Charger.PrimaryOutsideRange` | charger/src/charge.c:51-53 | A value beyond the documented range that is accepted. |
| `Charger.ScaledMonotone` | charger/src/charge.c:67-77 | The clamp continues the scale: the secondary setpoint never drops and never passes the saturated code. |
| `Charger.Controller.SetSetpoint` | charger/src/charge.c:46-57 | A rejected request leaves the setpoint alone. |
| `ChargerRuns.SelectedPrimary` | charger/src/state.c:99-119 | Each profile sets the primary that a request for its reading would, the fixed ones for 35000, 48000 and 55600; a rejected reading keeps the last one. |
| `ChargerRuns.PrimaryMonotone` | charger/src/charge.c:46-57 | Inside the window a larger request never sets a smaller primary. |
| `ChargerRuns.PrimaryBounded` | charger/src/charge.c:46-57 | In every run, setpoint requests by other code included, the primary setpoint is zero or between the scaled ends of the accepted window, unless a request exceeded 16 bits. |
| `ChargerRuns.StateOneDrives` | charger/src/fsm.c:56-63 | In every run, what state 1 drives is what other code has requested since the dispatcher last ran into it. |
| `ChargerRuns.StateOneDrivesNothing` | charger/src/fsm.c:56-63 | Without such requests, state 1 drives neither setpoint. |
| `ChargerRuns.RawExactly` | charger/src/state.c:108-111 | The raw setpoint of profile 2 is its documented value if and only if the reading is at least 17767, and falls from there on. |
| `ChargerRuns.EventLatches` | charger/src/fsm.c:113-139 | Every event keeps flags and event state in agreement, lowers no flag, and takes effect once. |
| `ChargerRuns.FlagsLatch` | charger/src/fsm.c:113-155 | In every run flags only rise, each event state has its flag, and a start that has been answered is never announced again. |
| `Charger.Controller.StateDispatch` | charger/src/fsm.c:45-99 | A transition clears the work counters, and entering state 1 or 2 sets the setpoints. |
| `ChargerOutputs.EntryDrives` | charger/src/fsm.c:64-71 | Every step to state 2 through the dispatcher sets primary and raw setpoint for the selected profile, clears the secondary one, and announces a start unless one has been. |
| `ChargerOutputs.ReadyDrives` | charger/src/fsm.c:64-71 | In every run, what states 2 and 5 drive is the setpoint selected when state 2 was last entered, or a later request. |
| `ChargerOutputs.StopsAnswer` | charger/src/fsm_step.c:69-139 | A gate fault, fault bits, absence or a missing measurement answers an announced start. |
| `ChargerOutputs.ChargingAnnounced` | charger/src/fsm_step.c:161-170 | Charging is announced by the second flag, or below the version's measurement by the third flag and its word. |
| `ChargerOutputs.CompletionTakenBack` | charger/src/fsm_step.c:185-202 | Every step from 5 to 2 clears the completion mark. |
| `ChargerOutputs.TenthCountAnswers` | charger/src/fsm_step.c:193-205 | While charging goes on it counts only without a measurement or on completion, and exactly the tenth count answers the start. |
| `ChargerOutputs.FaultEvents` | charger/src/fsm_step.c:239-263 | In state 10 exactly the first clearance answers the start, and without clearance exactly the count of 100 announces one. |
| `ChargerOutputs.WaitingTime` | charger/src/fsm_step.c:212-214 | State 1 counts its running steps since it was entered. |
| `ChargerOutputs.QueryFailureMarked` | charger/src/fsm_step.c:147-156 | After the wait, a failing query is marked and has no other effect. |
| `Charger.Controller.DebouncePresent` | charger/src/fsm_step.c:48-79 | One answer: it counts against the substate or clears the count; the flip to absent also goes to state 1; three readings force the substate. |
| `ChargerRuns.CounterIsAnswers` | charger/src/fsm_step.c:48-79 | In every run, the counter is the number of answers against the substate since the last contrary answer, transition or flip; they are all for one side unless a force changed sides among them. |
| `ChargerRuns.FlipExactly` | charger/src/fsm_step.c:52-79 | In every run, an unforced step flips the substate if and only if it brings the hundredth such answer. |
| `ChargerRuns.FlipIsUnanimous` | charger/src/fsm_step.c:48-79 | These hundred answers are all equal if and only if no force changed sides among them. |
| `ChargerRuns.MixedFlip` | charger/src/fsm_step.c:48-79 | A run in which one answer for present and 99 for absent flip to absent. |
| `Charger.Controller.RunState1` | charger/src/fsm_step.c:212-237 | Waiting counts ready steps and starts afresh on any other. |
| `Charger.Controller.RunState2` | charger/src/fsm_step.c:137-173 | Ready leaves for state 3 without a measurement and for state 5 when mode, measurement and limit allow it. |
| `Charger.Controller.RunState5` | charger/src/fsm_step.c:185-205 | One step of charging: the limit, the completion count and its finalization at 10. |
| `Charger.StepGoesTo` | charger/src/fsm_step.c:44-264 | The state after a step, from every state and for all readings: gate fault, flip to absent and fault bits first, then the edge of the state, each exactly when its condition holds. |
| `Charger.Controller.RunState10` | charger/src/fsm_step.c:239-259 | Clearance steps count up to the way out; others run the state's own counter. |
| `Charger.Controller.StateMachineStep` | charger/src/fsm_step.c:30-264 | The whole step: gate, debounce, gate fault, fault bits, then the case of the state it finds. |
| `ChargerWaits.EntryCarries` | charger/src/fsm_step.c:185-202 | What the counter brings into state 2: nothing from any state but 5, and from 5 what a teardown or the exit at the limit leaves. |
| `ChargerWaits.ReadyCounter` | charger/src/fsm_step.c:145-147 | In every run, the counter of state 2 is the running steps since it was entered plus what came along, up to 100. |
| `ChargerWaits.ChargingWaited` | charger/src/fsm_step.c:137-173 | Every step from 2 to 5 comes when these make at least 100. |
| `ChargerWaits.FullWaitExactly` | charger/src/fsm_step.c:137-173 | From state 2, every way to charging takes at least 100 running steps if and only if the counter is zero. |
| `ChargerWaits.WaitIsTight` | charger/src/fsm_step.c:145-171 | With steady readings charging starts as soon as the counter allows. |
| `ChargerWaits.TeardownShortensWait` | charger/src/state.c:56-68 | After a teardown, charging can start again no earlier than when the running steps in state 2 and the count brought from state 5 make 100; the wait is full if and only if that count is zero. |
| `ChargerWaits.LimitShortensWait` | charger/src/fsm_step.c:185-202 | After the step from 5 to 2 the wait is full if and only if the step brings no count along. |
| `ChargerWaits.ChargesAgainAtOnce` | charger/src/fsm_step.c:185-194 | From a count of 99, the exit at the limit is followed by charging after one waiting step. |
| `Charger.SwitchEdges` | charger/src/fsm_step.c:117-259 | Where the switch goes from each state, if and only if counter and readings meet the edge's condition: 0 to 1, 1 to 2, 2 to 3 or 5, 3 to 2, 5 to 2, 10 to 2. |
| `Charger.InvAlways` | charger/src/fsm_step.c:30-264 | In every run the state is one of 0, 1, 2, 3, 5, 10 and no counter passes 100. |
| `Charger.FaultBitsStop` | charger/src/fsm_step.c:117-137 | A running step that sees fault bits outside states 1 and 10 ends in state 1 with both setpoints zero. |
| `Charger.GateFaultStops` | charger/src/fsm_step.c:109-115 | A gate fault ends in state 10 from every state. |
| `Charger.CounterIsStreak` | charger/src/fsm_step.c:212-237 | In every run, the counter in state 1 is backed by that many ready steps in a row just before. |
| `Charger.WaitedLongEnough` | charger/src/fsm_step.c:212-234 | Every step from 1 to 2 is ready and comes after at least 100 consecutive ready running steps in state 1. |
| `Charger.ReadyStepAdvances` | charger/src/fsm_step.c:212-234 | A ready step in state 1 counts, or leaves at 100, if and only if it is not a flip to absent or nothing had been counted; the flip costs the whole count. |
| `ChargerWaits.ReadyStepsLeave` | charger/src/fsm_step.c:212-234 | From a cleared counter, 101 ready steps in a row leave state 1 for 2 if and only if none after the first flips to absent. |
| `ChargerWaits.FlippedWait` | charger/src/fsm_step.c:62-72 | A run after which 101 ready steps in a row are still in state 1, with two of them counted. |
| `Charger.CounterIsClearances` | charger/src/fsm_step.c:239-250 | In every run, the counter in state 10 is the number of clearance steps since the last gate fault. |
| `Charger.ClearedLongEnough` | charger/src/fsm_step.c:239-250 | Every direct step from 10 to 2 is exactly the 101st clearance step. |
| `BridgeRing.RingBuf.BytesUsed` | imx8_bridge/src/ring_buf.c:19-25 | The write pointer is the read pointer moved on by the result, modulo the capacity. |
| `BridgeRing.RingBuf.BytesFree` | imx8_bridge/src/ring_buf.c:28-39 | Used plus free is always the capacity less one. |
| `BridgeRing.RingBuf.Read` | imx8_bridge/src/ring_buf.c:45-72 | The oldest bytes come out in order across the wrap, and neither trap is reached. |
| `BridgeRing.RingBuf.Write` | imx8_bridge/src/ring_buf.c:75-99 | With room made sure, the bytes join the end of the contents across the wrap, and neither trap is reached. |
| `BridgeRing.RingBuf.WriteCapped` | imx8_bridge/src/ring_buf.c:106-127 | Plain writes store what fits; prefixed writes store header and payload, or nothing. |
| `BridgeRing.RingBuf.WriteNotify` | imx8_bridge/src/ring_buf.c:137-188 | The write, its inverted result, and a waiting session told exactly once when the threshold is met. |
| `BridgeRing.PartialMeansMissing` | imx8_bridge/src/ring_buf.c:134-187 | The notify result is false if and only if every byte went into the ring; a failed prefixed write changes nothing. |
| `BridgeRing.PlainWriteFills` | imx8_bridge/src/ring_buf.c:117-126 | A plain write stores a beginning of its source, and if not all of it has filled the ring. |
| `BridgeRing.StuckExactly` | imx8_bridge/src/ring_buf.c:111-125 | The zero-length trap is reached if and only if there is nothing to store: an empty source, or in plain mode a full ring. |
| `BridgeRing.FirstInFirstOut` | imx8_bridge/src/ring_buf.c:45-127 | In every run, bytes fetched then contents are the bytes stored, in order. |
| `BridgeRing.RecordRead` | imx8_bridge/src/ring_buf.c:45-72 | Reading a header and then as many bytes as it says takes exactly the oldest record. |
| `BridgeRing.WholeRecords` | imx8_bridge/src/ring_buf.c:106-127 | In every run of length-prefix mode, sends of nothing included, the ring holds whole records and they come out as they went in; an empty record is the last one ever stored, exactly if the ring is stuck. |
| `PositionLog.Shifter.SignalSend` | eshifter/src/can.c:58-73 | A block write stores its bytes, or blanks them by the retry, or changes nothing; it never leaves the page. |
| `PositionLog.Shifter.EmitHeader` | eshifter/src/config.c:56-74 | Formatting writes header and blank slots over the whole page; a failure sets the error flag. |
| `PositionLog.Shifter.FindLive` | eshifter/src/can.c:109-120 | The scan selects the first slot that is not empty, and its value. |
| `PositionLog.Shifter.ReadPositionStatus` | eshifter/src/can.c:91-133 | Reading back, with formatting of foreign and old pages and the error flag for unknown types. |
| `PositionLog.Shifter.SendPositionSignal` | eshifter/src/can.c:148-177 | One update: dead band, wrap clear, slot write, read back. |
| `PositionLog.StoreNext` | eshifter/src/can.c:159-168 | The four-byte write moves the only live slot on by one, for each way the write can go. |
| `PositionLog.ReadSyncs` | eshifter/src/can.c:106-120 | Reading a formatted page with at most one live slot finds that slot and no other. |
| `PositionLog.ReadByType` | eshifter/src/can.c:104-131 | By the page's first bytes: a position page is left alone, an old or foreign page is formatted, and an unknown type sets the error flag. |
| `PositionLog.StoredBytes` | eshifter/src/can.c:159-168 | A store puts the value behind the live slot, or in slot 1, low byte first, and empties the slot before it. |
| `PositionLog.ErrorStops` | eshifter/src/can.c:155-174 | Once the error flag is set, no update changes anything. |
| `PositionLog.UpdateKeepsSync` | eshifter/src/can.c:148-177 | An update that meets the condition leaves page and context in agreement, on the live slot that its outcomes say, with the stored value in it. |
| `PositionLog.UpdateExactly` | eshifter/src/can.c:148-177 | For every update of a log in step, whatever fails: the page keeps at most one live slot, and the context stays in step, each if and only if its condition holds. |
| `PositionLog.RunExactly` | eshifter/src/can.c:148-177 | A run stays in step after each update if and only if each update meets the condition. |
| `PositionLog.LogHoldsLast` | eshifter/src/can.c:91-177 | After any run whose updates meet the condition, failures included, the last value stored is in the slot that the number of stores since the log was last empty says, cycling through 1..123, and no other slot is occupied. |
| `PositionLog.RestartCarries` | eshifter/src/can.c:106-120 | An empty page, and any page with one live slot behind the first, is a start of such runs. |
| `PositionLog.WorkingStays` | eshifter/src/can.c:148-177 | With working memory every update meets the condition, for every raw value. |
| `PositionLog.FormatIsFresh` | eshifter/src/config.c:56-74 | A page without the header becomes such a fresh page. |
| `PositionLog.FormattedPage` | eshifter/src/config.c:63-72 | The formatted page: its six header bytes, and 0xFF to the end. |
| `PositionLog.SlotsCycle` | eshifter/src/can.c:162-168 | The slots used are 1 to 123 in turn. |
| `PositionLog.RefusedExactly` | eshifter/src/can.c:155-157 | An update is refused if and only if it lies within 3 of the last stored raw value less 0x8000; an empty log counts as 0. |
| `PositionLog.RepeatIsStored` | eshifter/src/can.c:155-157 | A position sent twice is never suppressed by the dead band, for any value. |
| `PositionLog.LostClearLeavesTwo` | eshifter/src/can.c:162-168 | A lost wrap clear followed by a store of a value other than 0xFFFF leaves two live slots. |
| `PositionLog.FailedReadLeavesTwo` | eshifter/src/can.c:98-103 | After a failed read back that should have found slot k, the next store leaves one live slot if and only if k is at most 1. |
| `GearDrive.DemandIs` | eshifter/src/gear.c:122-136 | The shift with its correction for negative sums is division truncated toward zero, and the cut-offs are plain limits. |
| `GearDrive.DemandMonotone` | eshifter/src/gear.c:122-136 | A larger error, present or accumulated, never demands less torque. |
| `GearDrive.DemandHasSign` | eshifter/src/gear.c:122-136 | Outside the dead zone, error and sum of one sign demand torque of that sign. |
| `GearDrive.SumTakesMean` | eshifter/src/gear.c:107-120 | The error sum takes in the mean of the last two errors within its limits, and starts afresh with a new position. |
| `GearDrive.ForwardExactly` | eshifter/src/gear.c:179-214 | A positive demand drives forward with a positive command, at once, or after driving back when the motor has been off for two such steps. |
| `GearDrive.BackwardExactly` | eshifter/src/gear.c:142-178 | A negative demand drives back with a negative command, but after driving forward only once other code has set the reverse flag. |
| `GearDrive.NoDemandRests` | eshifter/src/gear.c:140-141 | Without demand phase and bits stay and the command is zero. |
| `GearDrive.DrivesTowardTarget` | eshifter/src/gear.c:95-232 | From rest, with sum and last error of the target's side or zero, a target more than 9 ahead drives forward and one behind drives back. |
| `GearDrive.CommandSize` | eshifter/src/gear.c:216-232 | The command is the demand held back to 100 times the soft-start count, which starts at 1 and ends after 100, and the duty follows it. |
| `GearDrive.UnknownPhaseStops` | eshifter/src/gear.c:174-177 | A phase that does not exist switches the driver off. |
| `GearDrive.FullPower` | eshifter/src/gear.c:228-232 | A command above 9950 becomes 9999. |
| `GearDrive.Actuator.TurnBack` | eshifter/src/gear.c:142-178 | The phase machine for a negative demand. |
| `GearDrive.Actuator.TurnForth` | eshifter/src/gear.c:179-214 | The phase machine for a positive demand. |
| `GearDrive.Actuator.DriveStep` | eshifter/src/gear.c:80-233 | One drive step: parking on target, error tracking, demand, phase machine, soft start, command and duty. |
| `GearDrive.OnTargetParks` | eshifter/src/gear.c:95-105 | On target the motor is off, the command zero and the soft start rearmed, from every state of a run. |
| `GearDrive.StepIsSafe` | eshifter/src/gear.c:138-232 | Direction and enable bits follow the phase, phases 2 and 3 are never adjacent, the command has the sign of the phase and stays within 8000 and within 100 times the ramp. |
| `GearDrive.RunIsSafe` | eshifter/src/gear.c:80-233 | That holds over every run, whatever else writes the two phase flags. |
| `GearDrive.StartsAreSafe` | eshifter/src/gear.c:145-187 | The unpowered start and every parked start with the motor off are starts of such runs. |
| `GearDrive.DirectionChangesOff` | eshifter/src/gear.c:145-214 | In every run the direction bit changes only while the enable bit is 0. |
| `GearDrive.ReversalPassesOff` | eshifter/src/gear.c:145-214 | Between driving one way and the other there is always a step with the motor off. |
| `WrapTracker.Tracker.Track` | eshifter/src/gear.c:348-373 | One sample: wrap count, fine term, and the movement pushed into the next ring entry. |
| `WrapTracker.Tracker.CalcTimeOffset` | eshifter/src/gear.c:47-54 | The base less the tracked position in tenths of a degree; the signed reading of the fine term never shows. |
| `WrapTracker.MovementsAddUp` | eshifter/src/gear.c:358-371 | Over any samples the pushed movements add up to the change of 65536 times coarse plus raw. |
| `WrapTracker.FineFollows` | eshifter/src/gear.c:364-365 | Coarse times 3600 plus fine is always the position in tenths of a degree, rounded down. |
| `WrapTracker.MovementIsTrue` | eshifter/src/gear.c:359-369 | The tracker sees the true movement if and only if it is below half a turn, or half a turn exactly in the unwrapped direction. |
| `WrapTracker.FollowsShaft` | eshifter/src/gear.c:348-373 | While each movement is below half a turn, it follows the shaft over any distance. |
| `SoftTimer.Wheel.ChannelClear` | motor_control/src/pwm.c:196-226 | The lowest channel not handed out is handed out and cleared; 16 if there is none. |
| `SoftTimer.Wheel.ChannelRegister` | motor_control/src/pwm.c:239-250 | Registration arms period and handler, and refuses channels from 16 on. |
| `SoftTimer.Wheel.TickDispatch` | motor_control/src/pwm.c:108-135 | One tick over all channels in order, with handlers that allocate and register while it runs. |
| `SoftTimer.TickAscends` | motor_control/src/pwm.c:114-134 | One tick runs its handlers in the order of their channels, each at most once. |
| `SoftTimer.VisitFires` | motor_control/src/pwm.c:116-133 | A channel's handler runs if and only if the channel is active, its countdown was 1 and the handler is not null. |
| `SoftTimer.AllocationClears` | motor_control/src/pwm.c:201-222 | An allocation marks the lowest free channel, clears its countdown and handler, and changes nothing else. |
| `SoftTimer.FiresOnce` | motor_control/src/pwm.c:108-135 | A timer of period p fires exactly once, on the p-th tick, whatever all other code and all handlers do short of registering its channel again. |
| `SoftTimer.RegisterStarts` | motor_control/src/pwm.c:239-250 | Registering a handed-out channel with a handler starts such a timer; an invalid channel changes nothing. |
| `SoftTimer.NeverGivenTwice` | motor_control/src/pwm.c:196-226 | In no run, handlers included, is a channel handed out twice. |
| `SoftTimer.ExhaustedExactly` | motor_control/src/pwm.c:201-250 | Allocation returns 16 if and only if all channels are out, and registration refuses that 16. |
| `LockDebounce.Task.Sample` | elock/src/lock.c:198-315 | One sample: vote, commit at 500 votes, count locked commits, arm or disarm the alarm. |
| `LockDebounce.CommitNeedsVotes` | elock/src/lock.c:198-293 | A commit comes only after 500 consecutive samples on the committed side. |
| `LockDebounce.SteadyCommits` | elock/src/lock.c:198-293 | Whatever came before, 501 samples on one side commit it. |
| `LockDebounce.AnglesCommit` | elock/src/lock.c:198-293 | 501 angles below the threshold commit locked, 501 others commit unlocked, whatever came before. |
| `LockDebounce.AlarmCountsCommits` | elock/src/lock.c:305-315 | In every run the alarm is armed if and only if the last eight or more commits were all locked, and then the committed state is locked. |

## Left out

- FragmentTransport.Chunker.TxFrameSend: an inline payload is assumed to fit the frame it is copied into; the source copies its full length. Null arguments are not modelled.
- FragmentTransport.Reassembler.Dispatch: a frame is assumed to hold as many bytes as its length byte says. The handler gets a pointer to the gathered bytes, so the log records these.
- BleLink.Task.Pass: the bytes of a sound data frame go on to the COBS ring and the flash queue, which are vendor code; neither that nor the task's exit on a ring error is modelled. The two configuration bytes of the header and the notify call are not part of the contract. The CRC is any function of the bytes.
- Scheduler.ActKeepsInv: the kernel's intrusive nodes are a sequence and an index for each ring, so pointer aliasing inside a list is not captured. Draining the overflow list is kernel code, modelled as unlinking and filing its first session outside the lock; priorities never change.
- Scheduler.Bridge.TxComplete: the queue notification after the critical section is not modelled.
- FlashUpload.Handler.CommandHandler: request parsing, reply encoding and transmission, and the silent flag are not modelled; a command carries the fields its parser delivered. CRC reads outside flash, or through the null region pointer of a verify without an open region, have an arbitrary answer.
- FlashUpload.UploadVerifies: both regions are assumed to lie in flash and to consist of whole pages, as the descriptor table does not appear in the repository. Flash operations succeed. The CRC is any function of the bytes.
- SerialFifo.NothingLostBetween: each statement of the pop is taken as one step; the decrement of the shared count is assumed not to be split.
- Slip.Receiver.RxByte: the two calls at the loop's end, which both reach the same pop routine, are one pop an iteration. No resynchronisation from the middle of a frame is claimed. What the payload means is outside.
- ChargeProfile.ComputeProfile: a base of 0 divides by zero in the source, and a base whose top period leaves 32 bits is outside.
- Charger.Controller.StateMachineStep: driver calls, posted events, the telemetry report and its status byte, and the thresholds that only post events are not modelled. The gate byte is an input, so clearing it is not.
- ChargerWaits.TeardownShortensWait: the driver calls of the teardown are not modelled.
- ChargerRuns.StateOneDrives: setpoint requests by other code come between steps, not inside one.
- BridgeRing.RingBuf.WriteNotify: sources of more than 4294967291 bytes, for which the sum with the header wraps, are outside. Thread and interrupt context differ only in kernel calls, which are left out, as are null pointers and the timer command that follows.
- PositionLog.UpdateExactly: the registry lock and event logging are left out. A failed block write has no partial effect.
- GearDrive.Actuator.DriveStep: the errors are assumed small enough for 32-bit arithmetic. The address overlap of the forward flag with a filter index is modelled by writes to both flags between steps, so nothing is claimed about how long phase 4 lasts.
- WrapTracker.MovementsAddUp: the coarse counter is unbounded.
- SoftTimer.Wheel.TickDispatch: the two bitmaps are boolean arrays, and a handler is the list of requests it makes.
- LockDebounce.Task.Sample: the retry and motor handling between vote and commit, the object-dictionary broadcast and the tilt reference angles are not modelled; counters are unbounded.
- The ring of `motor_sensor/src/util.c` and the derating of `charger/src/profile.c`: easy members beside `BridgeRing` and the divisor search.
- Register, clock and interrupt bring-up, and task start-up: no property beyond the writes themselves.
- The heap of `imx8_bridge/src/main.c` and the header path of `can_session_write`: the text does not decide their behaviour.
- Floating point (shaft angle, filters, tilt thresholds) and the position calibration.
- The modem, authentication, certificate and light code: glue around vendor calls.
