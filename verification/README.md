# Firestarter firmware: a verified model

Firestarter is the firmware of an EPROM programmer. This project models the logic of it that does
not depend on the hardware, in the form the firmware gives it (loops over buffers, registers and
state fields), and proves what that logic promises. Each part pairs the imperative code with
functions that say what it must do, and proves the promises about those functions.

The model follows the `HARDWARE_REVISION` build with `DEV_TOOLS` off.

| file | part of the firmware |
|---|---|
| `Bytes.dfy`, `Wrappers.dfy`, `BusLines.dfy`, `RunningChecksum.dfy` | fixed-width values, bus words as sets of high lines, byte-wise checksums |
| `Crc8.dfy`, `Cobs.dfy`, `SerialFrames.dfy` | the frame codec: CRC-8, Consistent Overhead Byte Stuffing (Cheshire and Baker, SIGCOMM 1997, section 3), the in-place decoder, its recovery drain and the streaming encoder |
| `EpromBlock.dfy`, `EpromProgram.dfy` | the 27C program loop: the byte-by-byte algorithm and the batched scan and pulse passes that refine it, with the high-voltage route |
| `Crc32.dfy`, `DualSlot.dfy` | the crash-safe configuration store, power loss at any word; CRC-32 as in section 8 of RFC 1952 |
| `UsbRings.dfy` | the USB CDC rings shared by interrupt and main thread |
| `CommandDecoder.dfy`, `BusRemap.dfy` | command frame validation and the shortcut address remap it makes correct |
| `OperationEngine.dfy`, `MessageParser.dfy`, `Transfer.dfy` | the INIT/MAIN/END engine, the host message parser, the write and read transfers |
| `ControlRegister.dfy`, `Registers.dfy` | the control register on each board revision, the eliding register cache and the command lifecycle |
| `PageWrite.dfy`, `DeferredLog.dfy`, `VoltageMath.dfy`, `ConfigMigrate.dfy` | 28C page windows, the deferred-log queue, 32-bit voltage arithmetic, configuration bands |

Modelling choices a reader needs:

- The chip is an oracle. For the EPROM loop a cell reads as a function of the pulses that cell has
  received since the block began; for the 28C family every read may return anything.
- A 32-bit bus word is the set of its high lines, so `&`, `|`, `~` and `1 << n` are intersection,
  union, difference and singleton. Addresses stay numbers, and `BusLines.Lines` gives their bits.
- The serial receive buffer holds every byte that arrives before the inter-byte deadline, so an
  empty buffer stands for host silence past the deadline.
- Two hypotheses about the configuration store are explicit preconditions: no unfinished page
  passes its CRC-32 by coincidence, and the sequence number does not wrap.

Where the code and its comments disagree:

- `src/operation_utils.cpp:142-144` says that an "OK" behind a stray 'D' is still read. It is not:
  the O continues "DONE" and is consumed. `MessageParser.AckAfterPartialDone` gives the exact case.
- `src/command_decoder.c:73-74` checks a read against the whole device only, while the transfer
  ends a read at its region end. `Transfer.AcceptedReadRefusedIff` says which accepted read frames
  are then refused, and `Transfer.BackwardReadRefused` is one.
- The command decoder does not check that the read/write, VPP and static-high lines stay off the
  address lines. `BusRemap.DistinguishesIff` shows that this is exactly what telling addresses
  apart needs, and `BusRemap.OverlapAccepted` gives a frame that passes and collides.

## Model

| member | source | states |
|---|---|---|
| Crc8.TableIsShiftRegister | src/boards/rurp_serial_utils.cpp:325-347 | every entry of the CRC-8 table is eight clocks of the bitwise shift register for polynomial 0x07 |
| Crc8.OneByteChangesChecksum | src/boards/rurp_serial_utils.cpp:345-347 | changing exactly one byte of a payload of any length changes its CRC-8 |
| RunningChecksum.OneByteChangesRegister | src/boards/rurp_serial_utils.cpp:212-217 | any byte-wise checksum whose step loses neither register nor byte detects a one-byte change |
| Cobs.FrameDelimitedOnce | src/boards/rurp_serial_utils.cpp:226-309 | the encoder's only zero byte is the last one |
| Cobs.StuffLength | src/boards/rurp_serial_utils.cpp:244-302 | stuffing adds at least one byte and at most one more for every 254 |
| Cobs.RoundTrip | src/boards/rurp_serial_utils.cpp:105-309 | every payload within the capacity comes back unchanged, a longer one is refused with -2, and exactly the frame is consumed |
| Cobs.ReceiveIsRun | src/boards/rurp_serial_utils.cpp:137-224 | the outcome of a delimited frame depends only on what its bytes release: -2 exactly when that exceeds the capacity and the checksum byte |
| Cobs.DecodeStopsAfterDelimiter | src/boards/rurp_serial_utils.cpp:64-103 | whatever the decoder returns, it has read exactly through the first zero byte |
| Cobs.DecodedFits | src/boards/rurp_serial_utils.cpp:124-135 | a payload that is returned never exceeds the capacity |
| Cobs.FrameAfterGarbage | src/boards/rurp_serial_utils.cpp:73-103 | a valid frame behind any delimited garbage is decoded by the next call |
| Cobs.OneByteErrorDetected | src/boards/rurp_serial_utils.cpp:205-221 | one changed decoded byte, in the payload or the CRC, always gives -4 |
| Cobs.DecodeExtends | src/boards/rurp_serial_utils.cpp:137-201 | once the delimiter is buffered, later bytes change neither outcome nor position |
| Cobs.DecodeIsWorth | src/boards/rurp_serial_utils.cpp:137-224 | any zero-free wire bytes behind which a delimiter follows give what they are worth, defined by cutting the wire into blocks: -2 if their content does not fit, -3 if they are no whole blocks, -1 without content, -4 if the last content byte is not the CRC-8 of the rest, and that rest otherwise |
| Cobs.CutFrameRefused | src/boards/rurp_serial_utils.cpp:169-172 | a frame cut inside a run is never a payload: -3, or -2 where its content does not fit |
| Cobs.SilentStream | src/boards/rurp_serial_utils.cpp:137-157 | bytes without a delimiter are never a payload: -1 at the timeout, or -2 where their content does not fit |
| SerialFrames.DrainToDelimiter | src/boards/rurp_serial_utils.cpp:73-103 | the drain stops behind the first zero byte or at silence |
| SerialFrames.Push | src/boards/rurp_serial_utils.cpp:124-135 | the decoded bytes held grow by exactly one, unless the committed ones are already at the capacity, and nothing behind them is written |
| SerialFrames.ReadData | src/boards/rurp_serial_utils.cpp:105-224 | the in-place decoder returns the decoded payload or failure code, leaves the port where the specification says and writes nothing from the capacity on; `Cobs.DecodeIsWorth` says what each frame must give |
| SerialFrames.CheckFrame | src/boards/rurp_serial_utils.cpp:205-223 | the checksum recomputed over the committed bytes decides between the payload length and the failure code |
| SerialFrames.ChecksumOf | src/boards/rurp_serial_utils.cpp:212-217 | the loop computes the CRC-8 of the buffer |
| SerialFrames.EmitPayload | src/boards/rurp_serial_utils.cpp:258-283 | after the payload loop the bytes sent and the open run make up the stuffed frame |
| SerialFrames.EmitChecksum | src/boards/rurp_serial_utils.cpp:285-302 | the open run and the CRC are closed as the stuffing requires, for a zero and a nonzero CRC |
| SerialFrames.CommunicationWrite | src/boards/rurp_serial_utils.cpp:237-309 | the streaming encoder sends exactly the frame of its buffer |
| EpromBlock.AdmittedHasRoom | src/proms/eprom.cpp:66-105 | an admitted write has a pulse between 1 and 65535 us and may give every byte a first pulse |
| EpromBlock.PulsesWithinBudget | src/proms/eprom.cpp:364-380 | a byte's own loop never passes max_pulses |
| EpromBlock.ConvergedIff | src/proms/eprom.cpp:364-397 | a byte converges after n pulses exactly when it is wrong through all of them but holds its target behind the last, and both budgets allow them |
| EpromBlock.EnergyCapIff | src/proms/eprom.cpp:377-380 | a byte fails on the energy cap after n pulses exactly when it is wrong through all of them, pulses are left, and n pulses reach the cap that fewer did not |
| EpromBlock.MaxPulsesIff | src/proms/eprom.cpp:373-376 | a byte fails on the pulse limit exactly when it is wrong through all of its pulses and the cap allows them all |
| EpromBlock.EnergyBounded | src/proms/eprom.cpp:377-380 | with a cap, all pulses of a byte but its last stay below it |
| EpromBlock.AdmittedEnergy | src/proms/eprom.cpp:66-105 | an admitted 24-pin part gets less than 100 ms of program energy for each byte, whatever the pulse width, and an admitted 28-pin or 32-pin part at most 25 pulses |
| EpromBlock.BlankUntouched | src/proms/eprom.cpp:293-306 | a 0xFF target is neither read nor pulsed by the program loop; any other byte is read once more than it is pulsed |
| EpromBlock.ProgramBytesMeans | src/proms/eprom.cpp:283-398 | the program loop succeeds exactly when every byte that is not blank converges, and otherwise reports the first one that does not, with its count and reason |
| EpromBlock.FinalVerifyMeans | src/proms/memory.cpp:399-425 | the read-back succeeds exactly when every byte reads right, and otherwise reports the first wrong one and what it read |
| EpromBlock.SuccessMeans | src/proms/eprom.cpp:400-429 | after a success every byte that is not blank holds its target, and on 28-pin and 32-pin parts, unless the host skips the read-back, the blank ones too |
| EpromBlock.ProgrammedBytesMatch | src/proms/eprom.cpp:257-263 | after a successful program loop every byte that was not skipped holds its target |
| EpromBlock.MetMeansConverged | src/proms/eprom.cpp:293-363 | a byte not flagged after n passes has converged in its own loop with the pulses the passes gave it |
| EpromBlock.UnmetMeansExhausted | src/proms/eprom.cpp:364-380 | a byte still flagged when a budget runs out is exhausted in its own loop, at the same count and for the same reason |
| EpromBlock.ScanReadsCount | src/proms/eprom.cpp:299-306 | the scan passes read a byte once before any pulse and once after each pulse |
| EpromBlock.VerifyFailsOnlyOnBlank | src/proms/eprom.cpp:400-406 | after a successful program loop the final pass can fail only on a 0xFF target |
| EpromBlock.HandedOverIsInRange | src/proms/memory.cpp:399-406 | a chunk that the write transfer hands over never meets the size and range refusal of the final pass |
| EpromBlock.AddressWriteKeepsRoute | src/proms/memory.cpp:133-181 | an address write keeps every high-voltage bit, except the drop bit on a 32-pin part of an older board |
| EpromBlock.AllOffClears | include/rurp_pinout.h:105-114 | the all-off mask clears all five high-voltage bits, P1 in place of VPE on a P1 part |
| EpromBlock.AllOffMissesOtherSwitch | src/proms/eprom.cpp:518-524 | it would leave the switch of the other kind of part on, so the route discipline is needed |
| EpromProgram.Bench.GetData | src/proms/memory.cpp:334-372 | a read returns the cell, counts once, and is an event behind the write of its own address that finds the rail at its level and both switches off |
| EpromProgram.Bench.SetData | src/proms/memory.cpp:387-397 | a strobe counts one pulse and is an event behind the write of its own address that finds the rail with exactly the part's switch on |
| EpromProgram.Bench.ScanByte | src/proms/eprom.cpp:296-362 | one byte of a scan: read only while open, the read counted and in the history, its flag kept equal to being wrong |
| EpromProgram.Bench.ScanPass | src/proms/eprom.cpp:293-363 | a scan flags exactly the bytes still wrong and reports the first of them |
| EpromProgram.Bench.PulsePass | src/proms/eprom.cpp:382-394 | a pulse pass strobes every flagged byte once and no other; each strobe is in the history, where a strobe is allowed only at an address of the block and only with the switch on, and the switch is off again behind the pass |
| EpromProgram.Bench.ProgramGroup | src/proms/eprom.cpp:289-397 | a group ends like the byte-by-byte loop over its bytes, and a budget failure brings the route down |
| EpromProgram.Bench.ProgramGroups | src/proms/eprom.cpp:283-398 | all groups together have the outcome of the byte-by-byte loop over the block |
| EpromProgram.Bench.VerifyExecute | src/proms/memory.cpp:399-425 | the final pass refuses a block that does not fit the buffer or the device, and otherwise reads every byte once and reports the first mismatch |
| EpromProgram.Bench.WriteExecute | src/proms/eprom.cpp:215-429 | for every block, group size, row and chip: same outcome, failing address and pulse count as the byte-by-byte loop; on success each address of the block occurs in the history exactly as often as that loop strobes and reads it, and on failure never more often; with an energy cap no byte is strobed past it by a whole pulse, failed runs included; nothing outside the block is addressed, read or strobed, nothing is erased, measured or identified, and no high voltage is set but the rail and the part's switch; all high-voltage bits off after an error |
| EpromProgram.KeptConcernsBlock | src/proms/eprom.cpp:215-429 | a history that was allowed for a block touches nothing but that block |
| EpromProgram.ConfinedWithinEnergy | src/proms/eprom.cpp:377-380 | in a history confined to its block, the strobes of one address times the pulse width stay below the cap and one pulse more |
| EpromProgram.WriteAll | src/proms/eprom.cpp:128-429 | a whole write, initialisation and any number of blocks of one part: every event is allowed from where the last run left the control register, every run, failed or not, is confined to its block and its own pulses and reads, the first failing block decides the report, every block of a success is done in full, and every failure leaves all high-voltage bits off |
| EpromProgram.EachRunKept | src/proms/eprom.cpp:215-429 | each single run of a whole write was allowed event by event, touched only its block and gave no byte more pulses or reads than the byte-by-byte loop, nor more energy than the cap and one pulse |
| EpromProgram.EachDone | src/proms/eprom.cpp:283-429 | in a successful whole write every block has the strobes and reads of the byte-by-byte loop |
| EpromProgram.CountsAreTimes | src/proms/eprom.cpp:296-390 | the pulse and read counts of a byte are the strobes and reads of its address in the history |
| EpromProgram.Bench.CheckVpp | src/proms/eprom.cpp:445-475 | the rail goes up for the measurement, is measured and goes down again; for a refused calibration and on Rev 0 nothing happens to the control register at all |
| EpromProgram.Bench.CheckChipId | src/proms/eprom.cpp:432-443 | exactly the identity sequence happens: both identity bytes are read, with the regulator and A9 on and nothing else, and all bits go off |
| EpromProgram.Bench.Erase | src/proms/eprom.cpp:477-496 | exactly the erase sequence happens: one erase strobe, which sees the undropped rail on A9 and the part's switch, and all bits go off |
| EpromProgram.Bench.WriteInit | src/proms/eprom.cpp:128-155 | every exit of the initialisation leaves all five high-voltage bits clear; it fails exactly on a bad calibration, a high rail or a wrong identity, and reads the identity and erases exactly when nothing before failed and the command asks for it |
| EpromProgram.EveryEventKept | src/proms/eprom.cpp:246-272 | in a kept history every single read, strobe, measurement and erase found the control register it needs, and belongs to the stage it happened in |
| Crc32.Compute | platform/py32f071/src/config_storage_dualslot.cpp:119-146 | the bit loop computes the CRC-32 of the buffer |
| Crc32.OneByteChangesChecksum | platform/py32f071/src/config_storage_dualslot.cpp:119-146 | changing exactly one byte of a message changes its CRC-32 |
| DualSlot.MadeRecord | platform/py32f071/src/config_storage_dualslot.cpp:175-213 | a record as written is valid and carries the configuration and sequence that went in |
| DualSlot.OneByteInvalidates | platform/py32f071/src/config_storage_dualslot.cpp:41-73 | a record with exactly one changed byte never validates |
| DualSlot.BlankInvalid | platform/py32f071/src/config_storage_dualslot.cpp:43-48 | an erased page is never a record |
| DualSlot.NineWordsComplete | platform/py32f071/src/config_storage_dualslot.cpp:204-218 | nine whole words hold the record |
| DualSlot.BlankIsNeverComplete | platform/py32f071/src/config_storage_dualslot.cpp:200-203 | power loss between erase and program leaves nothing that could be loaded |
| DualSlot.ActiveSlotUntouched | platform/py32f071/src/config_storage_dualslot.cpp:170-218 | the active slot is never erased or programmed |
| DualSlot.SaveSwitchesOnCompletion | platform/py32f071/src/config_storage_dualslot.cpp:168-219 | after a save cut anywhere the active record is the new one if it is complete on flash and otherwise the old one; valid slots never share a sequence |
| DualSlot.RunLoadsLastComplete | platform/py32f071/src/config_storage_dualslot.cpp:148-219 | over any run, load returns the configuration of the last complete save |
| DualSlot.CrashSafety | platform/py32f071/src/config_storage_dualslot.cpp:148-219 | from a store without a valid record, load returns the last complete save of any run and nothing if there was none |
| DualSlot.ReportedSaveIsLoaded | platform/py32f071/src/config_storage_dualslot.cpp:215-218 | a save that returned true is the one loaded |
| DualSlot.UndisturbedSave | platform/py32f071/src/config_storage_dualslot.cpp:168-219 | a save reports success exactly when erase and program both succeed, and such a save is the one loaded |
| DualSlot.WrappedSaveIsLost | platform/py32f071/src/config_storage_dualslot.cpp:184-188 | at sequence 2^32 - 1 a save reports success and load keeps the configuration before it |
| DualSlot.Flash.ScanSlots | platform/py32f071/src/config_storage_dualslot.cpp:84-115 | the scan finds the valid slot with the higher sequence |
| DualSlot.Flash.Load | platform/py32f071/src/config_storage_dualslot.cpp:148-166 | load overwrites the front of the caller's buffer with the active configuration, or nothing; the copy must stay inside the record's configuration, as it always does for a buffer no longer than that |
| DualSlot.Flash.ProgramPage | platform/py32f071/src/config_storage_dualslot.h:95-111 | programming an erased page word by word leaves the image up to the last word written and 0xFF behind it |
| DualSlot.Flash.Save | platform/py32f071/src/config_storage_dualslot.cpp:168-219 | the save erases and programs only the inactive slot, as the specification of a cut save says |
| DualSlot.StagePage | platform/py32f071/src/config_storage_dualslot.cpp:175-213 | the staging buffer is the record with its checksum over a page of 0xFF |
| UsbRings.PushAppends | platform/py32f071/src/usb_cdc.c:140-147 | moving the head behind a stored byte appends it |
| UsbRings.PopRemovesFirst | platform/py32f071/src/usb_cdc.c:242-244 | moving the tail removes the oldest byte |
| UsbRings.TakePacketSplits | platform/py32f071/src/usb_cdc.c:103-108 | filling a packet splits the ring contents in order, and the packet is full or the ring empty behind it |
| UsbRings.ReceiveAppends | platform/py32f071/src/usb_cdc.c:134-154 | the OUT callback appends a prefix of the packet and drops bytes only when the ring is full |
| UsbRings.AvailableNeverOverstates | platform/py32f071/src/usb_cdc.c:220-228 | a packet arriving between the two index reads cannot make the count too large |
| UsbRings.StepSafe | platform/py32f071/src/usb_cdc.c:90-169 | every callback and every single access of the main thread keeps the invariant |
| UsbRings.EveryInterleaving | platform/py32f071/src/usb_cdc.c:90-169 | in every interleaving: no byte lost, reordered or repeated either way, at most one IN transfer, every full packet closed by a zero-length one, and no stalled transmit ring outside a write |
| UsbRings.EveryListRuns | platform/py32f071/src/usb_cdc.c:90-169 | every list of events is an interleaving: no callback or access is ever undefined |
| UsbRings.WriteReturnsAccepted | platform/py32f071/src/usb_cdc.c:265-295 | in every interleaving the count a write returns is the number of bytes accepted for transmission since its call, and they are the first bytes of its data |
| UsbRings.WriteGoesOn | platform/py32f071/src/usb_cdc.c:265-295 | no callback and no access but its own last one ends a write or changes its data |
| UsbRings.StepEndsWhole | platform/py32f071/src/usb_cdc.c:275-291 | a write comes to its end with bytes left only directly behind a look at an expired clock with the ring full |
| UsbRings.FullRingWaits | platform/py32f071/src/usb_cdc.c:278-286 | with time left, a full ring leaves the write running at the same byte |
| UsbRings.WholeWriteAccepted | platform/py32f071/src/usb_cdc.c:265-295 | in every interleaving, a write that never finds the ring full with its time up returns the length of its data, and all of it has been accepted |
| UsbRings.RoomyWriteFinishes | platform/py32f071/src/usb_cdc.c:265-295 | whatever callbacks come in between and whatever the clock says, a write whose data fits the room in the ring is done after three accesses for each byte and two more, with all of its data accepted |
| UsbRings.Device.StartTransmit | platform/py32f071/src/usb_cdc.c:96-112 | the loop over the ring array starts exactly the next packet |
| UsbRings.Device.FillPacket | platform/py32f071/src/usb_cdc.c:103-108 | the loop moves the front of the ring into the packet buffer, until the buffer is full or the ring empty |
| UsbRings.Device.OnBulkOut | platform/py32f071/src/usb_cdc.c:134-154 | the OUT callback on the arrays appends to the receive ring exactly as the machine's step, dropping only what does not fit |
| UsbRings.Device.OnBulkIn | platform/py32f071/src/usb_cdc.c:156-169 | the IN callback on the arrays ends the transfer and starts the next packet or the zero-length one exactly as the machine's step |
| UsbRings.Device.RunMain | platform/py32f071/src/usb_cdc.c:235-295 | each access of read and write on the arrays is the machine's step, so `UsbRings.WriteReturnsAccepted` and `UsbRings.WholeWriteAccepted` hold of it |
| UsbRings.Device.BeginRead | platform/py32f071/src/usb_cdc.c:235-240 | a read begins only on a ring that is not empty |
| UsbRings.Device.BeginWrite | platform/py32f071/src/usb_cdc.c:265-278 | a write begins at its first byte |
| CommandDecoder.ValidateLines | src/command_decoder.c:30-50 | accepted exactly when present lines come first, lie on the bus and differ; otherwise the refusal names the first line that spoils it |
| CommandDecoder.ValidateMemory | src/command_decoder.c:30-89 | accepted exactly when the lines are good and every other check passes; otherwise the code of the first check that fails |
| CommandDecoder.OthersPassIff | src/command_decoder.c:51-89 | the checks behind the lines are passed exactly by payloads whose control lines are absent or on the bus, whose fixed lines lie on it, whose timings and voltage are within their limits, whose part is described where the command needs it, and which start inside |
| CommandDecoder.FieldsReadIff | src/command_decoder.c:93-110 | the accessors return a list of fields exactly when the payload is that list written out, big-endian, one field behind the other |
| CommandDecoder.DeriveMask | src/command_decoder.c:112-127 | the derived mask is the set of driven lines and the count is the longest straight stretch |
| CommandDecoder.Handle.ApplyMemory | src/command_decoder.c:91-128 | every memory field comes from the payload, and the bus configuration is derived from it |
| CommandDecoder.Handle.Decode | src/command_decoder.c:154-201 | the verdict on a frame; a refused frame writes no field |
| BusRemap.SetReadHighMask | src/proms/memory.cpp:465-475 | the read-high line is the VPP line of a P1 part and nothing for any other part, as the remap needs, and is held low with the regulator on exactly where driving it would switch a programming voltage |
| BusRemap.SwitchingLines | include/memory_utils.h:104-115 | driving a line switches a programming voltage exactly for lines 17 to 19 on every known revision, and for line 21 on Rev 2 |
| BusRemap.ForcedIff | src/proms/memory.cpp:442-463 | a line is held high whatever the address is exactly if it is a fixed line, the read/write line of a read, the VPP line of a part that takes its voltage elsewhere, or the VPP line of a P1 part on a read that neither P1 nor, where it matters, the regulator blocks |
| BusRemap.RemapAddressBus | src/proms/memory.cpp:428-463 | for every accepted bus configuration the shortcut remap is the plain wiring: bus bit of line i is address bit i, every other address-derived bit 0 |
| BusRemap.DistinguishesIff | src/proms/memory.cpp:428-463 | the remap tells all addresses of the device apart exactly when no forced line is an address line |
| BusRemap.OverlapAccepted | src/command_decoder.c:51-56 | the decoder accepts a frame whose read/write line is an address line, and reads then collide |
| Registers.ElisionIsInvisible | include/rurp_register_utils.h:27-66 | on a coherent cache, a skipped write cannot be told from a made one |
| Registers.ElisionNeedsCoherence | include/rurp_register_utils.h:42-45 | on an incoherent cache it can, so coherence must be kept |
| Registers.PhysicalZero | include/rurp_hw_rev_utils.h:15-41 | control value 0 drives no physical bit on any revision |
| ControlRegister.PinsOnRev2 | include/rurp_hw_rev_utils.h:19-27 | each physical pin of a Rev 2 board follows its one logical bit, A16 and the drop bit in each other's gaps, and only the P1 switch follows two |
| ControlRegister.PinsOnOtherRevisions | include/rurp_hw_rev_utils.h:28-38 | on Rev 0 and 1 the pins are the low logical bits, with A16 also following the drop bit; an unknown revision drives nothing |
| ControlRegister.SharedPins | include/rurp_hw_rev_utils.h:15-41 | two control values look the same on a board exactly when they differ at most in how they turn on its one shared pin |
| Registers.LatchesFollowCache | src/firestarter.cpp:174-283 | in every state reachable from power-on the latches agree with the cache, and between commands all are 0 with the chip deselected, across revision changes |
| Registers.PassEnds | src/firestarter.cpp:185-283 | a pass that finds the running command expired or finished leaves the board idle with all registers 0 and the chip deselected; any other pass keeps it running |
| Registers.FrameTaken | src/firestarter.cpp:185-283 | an idle board takes the command of the next frame, is idle and quiet again after a refusal, and puts a configured revision in force |
| Registers.Board.constructor | src/firestarter.cpp:38-57 | board setup on unknown latches, before the revision is known, ends in the start state |
| Registers.Board.WriteToRegister | include/rurp_register_utils.h:27-66 | the write that skips equal values leaves cache and latches as the eliding write on values does, for each register and every revision |
| Registers.Board.FinishCommand | src/firestarter.cpp:174-183 | every command ends with the chip disabled and all registers written 0 |
| Registers.Board.LoopOnce | src/firestarter.cpp:185-283 | a pass ends the command when the watchdog has expired, starts one only while idle, and otherwise runs its operation, exactly as in the transition that keeps latches and cache in agreement |
| OperationEngine.IncrementKeepsFlags | src/operation_utils.cpp:26-28 | the phase increment leaves both flags alone exactly below phase 63 |
| OperationEngine.EntriesInOrder | src/operation_utils.cpp:182-236 | phases are entered one at a time in order, and INIT, MAIN and END each directly behind its own acknowledgement |
| OperationEngine.MainHandlerInMain | src/operation_utils.cpp:71-76 | the main handler runs only between the entry to MAIN and its completion |
| OperationEngine.EndHandlerAfterMain | src/operation_utils.cpp:198-204 | the end handler runs only after MAIN was marked done and never after a failure |
| OperationEngine.FailedIsLast | src/operation_utils.cpp:206-222 | nothing runs after a failure |
| OperationEngine.CommandSafe | src/operation_utils.cpp:55-236 | for all bytes, arrivals, handlers and calls: the marks of a command are legal, the acknowledgements it used are messages it heard, what it heard is the front of the host's stream, and it finishes only with all phases done or with a failure as its last mark |
| OperationEngine.OwnAcknowledgement | src/operation_utils.cpp:182-217 | each entry to INIT, MAIN and END directly follows its own acknowledgement, a message the host sent, later entries on later messages |
| OperationEngine.AcksAdvance | src/operation_utils.cpp:95-115 | no two phases use the same acknowledgement |
| OperationEngine.AckHeardAt | src/operation_utils.cpp:95-115 | every acknowledgement used is an OK that a poll returned |
| OperationEngine.UnmarkedInitDidNothing | src/operation_utils.cpp:206-236 | an INIT handler that leaves no mark has not run: its result cannot show in the call |
| OperationEngine.UnmarkedMainDidNothing | src/operation_utils.cpp:71-76 | a MAIN callback that runs its handler and leaves no mark has not been called |
| OperationEngine.UnmarkedEndDidNothing | src/operation_utils.cpp:206-236 | an END handler that leaves no mark has not run |
| OperationEngine.AckedHandlerRuns | src/operation_utils.cpp:182-236 | before INIT and before END, an acknowledged call enters the phase, runs its handler and, if that succeeds, marks the phase done, all in that call |
| OperationEngine.AckedMainRuns | src/operation_utils.cpp:55-76 | before MAIN, an acknowledged call enters MAIN and makes its callback in the same call |
| OperationEngine.MainGoesOn | src/operation_utils.cpp:70-76 | in MAIN every call makes the callback, until that marks MAIN done |
| OperationEngine.InProgressAgain | src/operation_utils.cpp:206-236 | a handler that asks to be called again is, in the same phase and without another acknowledgement |
| OperationEngine.UnansweredFails | src/operation_utils.cpp:182-217 | a wait that fails, before any phase, ends the command as failed |
| OperationEngine.FailureFinishes | src/operation_utils.cpp:55-76 | a handler or a callback that fails ends the command as failed |
| OperationEngine.LastMessageFinishes | src/operation_utils.cpp:57-65 | after END the next message finishes the command, and nothing else does |
| OperationEngine.CommandCompletes | src/operation_utils.cpp:55-236 | a command whose waits, handlers and callback succeed runs INIT, MAIN and END in four calls, each phase behind its own acknowledgement, and finishes on the last message: its marks are given one by one |
| OperationEngine.FourAnswers | src/operation_utils.cpp:55-236 | a host that answers each wait with one OK, and sends one more, has its command completed, and the k-th acknowledgement it sends opens the k-th phase |
| OperationEngine.Engine.StartPhase | src/operation_utils.cpp:182-217 | a phase is entered on an acknowledgement that the polling loop took from the port, or the command fails |
| OperationEngine.Engine.HouseKeepingPhase | src/operation_utils.cpp:206-236 | one phase leaves exactly the state, stream and marks of the phase on values |
| OperationEngine.Engine.MainCallback | src/operation_utils.cpp:71-76 | the MAIN callback leaves exactly the state, stream and marks of the callback on values |
| OperationEngine.Engine.ExecuteStateful | src/operation_utils.cpp:55-78 | one call leaves exactly the state, stream and marks of the call on values, of which `OperationEngine.CommandCompletes` shows that the calls of a command bring it through all its phases |
| OperationEngine.Engine.RunCommand | src/operation_utils.cpp:55-86 | a whole command leaves exactly the marks of its calls, and they are legal, acknowledged by the host and properly ended |
| MessageParser.FragmentationIndependent | src/operation_utils.cpp:117-174 | messages returned and messages still buffered are those of the whole stream, however it was split |
| MessageParser.SplittingDoesNotMatter | src/operation_utils.cpp:117-174 | two ways of splitting one stream return the same messages in the same order |
| MessageParser.FoundStaysFound | src/operation_utils.cpp:119-174 | bytes that arrive later do not change a message a call has found |
| MessageParser.NothingFoundKeepsRest | src/operation_utils.cpp:119-174 | a call that finds nothing throws away only bytes that no later byte can save |
| MessageParser.FrameAfterPartialDone | src/operation_utils.cpp:138-167 | a data frame behind any partial "DONE" is never swallowed |
| MessageParser.AckAfterPartialDone | src/operation_utils.cpp:138-156 | an "OK" behind a partial "DONE" is swallowed exactly when the partial word is "D" |
| MessageParser.WordsFound | src/operation_utils.cpp:124-156 | a whole OK is returned as an acknowledgement and a whole DONE as the end, with all bytes behind them left |
| MessageParser.DoneAfterPartialDone | src/operation_utils.cpp:138-156 | a whole DONE behind any partial one is returned |
| MessageParser.JunkSkipped | src/operation_utils.cpp:119-174 | a byte that begins no message changes nothing |
| MessageParser.WaitConsumesOneAck | src/operation_utils.cpp:95-115 | with bytes arriving before, between and behind the polls, a successful wait takes exactly one acknowledgement of the stream, the first message behind any data messages, and leaves the rest of the stream to later polls |
| MessageParser.WaitFindsAck | src/operation_utils.cpp:95-115 | however the bytes arrive, a wait finds the acknowledgement that they hold behind n data messages, if no poll meets an unfinished frame and the polls go on n + 1 times behind the last byte |
| MessageParser.WaitHears | src/operation_utils.cpp:95-115 | whatever a wait hears, successful or not, is the front of the stream, if no data frame stayed unfinished |
| MessageParser.ListenHears | src/operation_utils.cpp:117-174 | the same for any series of polls |
| MessageParser.OpGetMessage | src/operation_utils.cpp:119-174 | the call returns the message, the payload in the buffer and the bytes left |
| MessageParser.OpWaitForAck | src/operation_utils.cpp:95-115 | the polling loop answers and consumes as a wait with these arrivals does, so it takes one acknowledgement and no more |
| MessageParser.OpListen | src/operation_utils.cpp:117-174 | polling takes from the port what the polls on values take |
| Transfer.WriteTransferConserves | src/eprom_operations.cpp:63-134 | for every accepted write frame and all bytes the host sends, however they arrive: written chunks tile start to cursor, their bytes are the payloads of the data frames heard, in order and none missing but one refused or failed at the end, what was heard is the front of the stream, no chunk handed over passes the end, the entry guard never trips, completion only at the end or on DONE without a region end |
| Transfer.DataTakenIff | src/eprom_operations.cpp:108-133 | before the end, a data message is refused exactly when it is longer than the buffer or would pass the end; any other is handed over, and the cursor moves behind it exactly when the handler succeeds |
| Transfer.NoDataMovesNothing | src/eprom_operations.cpp:79-126 | no other message moves the cursor: nothing found is a request for data, a DONE ends the write exactly when there is no region end, and the rest is refused |
| Transfer.AtEndNothingIsHeard | src/eprom_operations.cpp:66-77 | at the end the write is complete without another message, and past it the call fails |
| Transfer.WriteCompletes | src/eprom_operations.cpp:63-134 | a host that sends data frames which fit the buffer and reach from start to end has its write completed, however the bytes are split between the calls, if no call meets an unfinished frame, the handlers succeed, and the calls go on long enough: the cursor is at the end and every payload is written, in order |
| Transfer.TurnsComplete | src/eprom_operations.cpp:63-134 | the same from any state of a write, with any bytes held and any messages of other kinds behind the data |
| Transfer.WholeFramesInTime | src/eprom_operations.cpp:79 | a host whose frames arrive whole, any number at a time, never lets a call meet an unfinished one |
| Transfer.AcceptedWriteStartsInside | src/command_decoder.c:73-87 | an accepted write starts inside the operation that the transfer will compute |
| Transfer.ReadTransferComplete | src/eprom_operations.cpp:137-176 | with every chunk acknowledged the chunks sent are the device contents from start to end, in order, none empty, and the loop ends |
| Transfer.ReadStep | src/eprom_operations.cpp:137-176 | a call sends one chunk, as much as the buffer holds and the operation has left; the cursor moves behind it exactly when the host acknowledges it, and the read is done exactly when that reaches the end |
| Transfer.AcceptedReadRefusedIff | src/eprom_operations.cpp:137-144 | an accepted read is refused on entry exactly when its region ends before its start |
| Transfer.BackwardReadRefused | src/command_decoder.c:73-87 | a concrete read frame passes the decoder and is refused by the transfer |
| Transfer.Session.ProcessIncoming | src/eprom_operations.cpp:63-134 | the callback polls the port unless the end is reached, moves the cursor only behind a chunk whose handler succeeded, and otherwise reports why, as the transition that keeps the chunks contiguous and, by `Transfer.DataTakenIff` and `Transfer.WriteCompletes`, takes every chunk that fits |
| Transfer.Session.TakeMessage | src/eprom_operations.cpp:92-133 | the chunk handed over is the payload of the data message, at the cursor |
| Transfer.Session.Receive | src/operation_utils.cpp:71-76 | the calls of a whole write leave exactly the cursor, chunks and stream of the transfer on values |
| Transfer.Session.ReadExecute | src/proms/memory.cpp:317-332 | the read handler fills the buffer with the device contents at the cursor |
| Transfer.Session.ProcessOutgoing | src/eprom_operations.cpp:137-176 | the callback sends the device contents at the cursor, cut at the operation end, and advances only when acknowledged |
| PageWrite.MaskOfAnySize | src/proms/eeprom_28c.cpp:415-423 | the flush mask is one less than the delivered size where that is a power of two up to 512, and 63 for any other value |
| PageWrite.NextStaysOnPage | src/proms/eeprom_28c.cpp:475 | an address that is no page end has its successor on the same page |
| PageWrite.CoveredByOne | src/proms/eeprom_28c.cpp:432-436 | every byte of a covered range lies in one of the windows |
| PageWrite.Socket.WaitForPageWrite | src/proms/eeprom_28c.cpp:507-531 | success only behind two consecutive answers of the chip with the polling bit right; failure only behind the full number of polls, no two in a row right |
| PageWrite.Socket.VerifyReadback | src/proms/eeprom_28c.cpp:539-559 | success exactly when the chip answered every byte of the window right; failure on the first wrong answer |
| PageWrite.Socket.WriteExecute | src/proms/eeprom_28c.cpp:425-496 | for every page size, start and length: on success windows inside one page each cover the block, and for each the chip gave two right polls and then the right answer for every byte, with exactly the bytes up to its end loaded; on failure nothing behind the window whose poll or read-back failed was loaded |
| PageWrite.EachProven | src/proms/eeprom_28c.cpp:475-491 | every window of a successful write has its polls and its answers in the history |
| PageWrite.EveryByteAnswered | src/proms/eeprom_28c.cpp:539-559 | after a successful write the chip has answered every byte of the block right |
| DeferredLog.QueueKeeps | include/deferred_log.h:57-84 | after any pushes the queue is an in-order part of them, with exactly the first four frames that may not be dropped and a prefix of the droppable ones |
| DeferredLog.ClippedFits | include/deferred_log.h:73-84 | a slot holds the id and the first eight bytes of the parameters, all of them if they are no more |
| DeferredLog.WithoutNewest | include/deferred_log.h:63-72 | an eviction removes the last droppable frame and nothing else |
| DeferredLog.Log.PushFrame | include/deferred_log.h:57-84 | the push on the slot array gives the queue that a push on the sequence gives, evicting only the newest droppable frame of a full queue |
| DeferredLog.Log.FindVictim | include/deferred_log.h:63-69 | the search from the back of a full queue finds its newest droppable frame, if there is one |
| VoltageMath.ConversionDoesNotWrap | src/rurp_voltage_math.c:34-43 | for every plausible calibration and ADC counts up to full scale no 32-bit intermediate overflows |
| VoltageMath.FoldedNeverExceeds | include/rurp_voltage_math.h:101-111 | the folded form never exceeds the exact rounded quotient |
| VoltageMath.FoldedFallsShortBy | include/rurp_voltage_math.h:101-111 | it falls short by at most ceil(adc / bandgap_adc) mV |
| VoltageMath.ReadingWithinBound | src/rurp_voltage_math.c:34-43 | the reported value keeps both bounds after saturation |
| VoltageMath.PlausibleDoesNotWrap | src/rurp_voltage_math.c:16-32 | the plausibility test, made on wrapped values, only passes values that did not wrap |
| ConfigMigrate.UsableIsPlausible | src/rurp_config_migrate.cpp:45-65 | values inside the bands make a plausible calibration on 10-bit and 12-bit boards |
| ConfigMigrate.Config.CheckFields | src/rurp_config_migrate.cpp:45-65 | the result says whether a field is unusable; correction resets exactly those |
| ConfigMigrate.Config.Migrate | src/rurp_config_migrate.cpp:79-95 | a foreign record becomes the defaults, one of this firmware keeps every usable value, and the result says whether anything changed |
| ConfigMigrate.Config.Commit | src/rurp_config_migrate.cpp:71-77 | a candidate is taken over exactly when every value is usable |
| ConfigMigrate.LiveConfiguration | src/firestarter.cpp:94-111 | after boot and any commits the live calibration is plausible |

## Left out

- Register strobes, GPIO, ADC and USB driver calls, the flash driver glue, delays: abstract operations stand for them.
- Packing of the `pending` flags into bytes: the model keeps one boolean for each byte of a group.
- Program progress frames inside the EPROM loop: they change no chip or handle state.
- The row-missing exit of the EPROM write body: admission refuses an unknown protocol before it.
- Physical aliasing of A18 and P1 on Rev 2 boards: the route property is about the logical control register.
- Configuration store: saves use the size of the configuration structure, as every caller does, and slot reads do not fail.
- DualSlot.Flash.Load: a caller buffer longer than a configuration, with a record that claims more than that, makes the copy run past the configuration; the model stops before it.
- Configuration store, sequence wrap: crash safety excludes it by hypothesis; `DualSlot.WrappedSaveIsLost` shows what happens there.
- USB reset or reconfiguration during a transfer: the device stays configured.
- Message parser and byte timeouts: a call that would wait for the rest of a data frame is taken up when the frame is whole; where a wait or a command does meet an unfinished frame, its `timely` flag falls and the statements about the stream are not made.
- MessageParser.WaitForAck: the deadline is the number of polls that fit it, not a clock.
- Operation engine: handlers change only the two flag bits of the state, and a command without a main handler is refused before the engine starts.
- Transfers: the handler is a success or an error; what a chip driver does with a chunk is modelled only for the EPROM and the 28C family.
- 28C: SDP sequences, chip erase and the identity check are fixed command sequences.
- Deferred log: the drop of frames wider than a slot in the Uno override happens before the queue.
- `rurp_scale_vcc_mv` and `cmd_apply_config`: one product and four field copies, easy members only.
- Intel, NOR-unlock and 5 V page flash drivers, SRAM, developer tools, log emission, revision detection thresholds.
