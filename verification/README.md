# TSB UniPro CPort engine and firmware-over-UniPro loader

This project models the boot ROM's UniPro CPort layer on the TSB bridge chips:

- The statically allocated CPort table (four entries, each with a transmit buffer, a receive buffer and a receive address).
- The CPort reset procedure:
  - wait for the transmit queue to drain;
  - assert the transmit reset strobe;
  - clear four connection attributes;
  - assert the receive strobe, then release both strobes.
- The reset of all CPorts, in ascending order and fail-fast.
- Re-arming of the receive path and CPort initialisation.
- The receive poll, which tells apart an error end-of-message, an end-of-transfer overflow and a completed frame.
- Transmission into a CPort's buffer, with the end-of-message trigger.
- The mailbox handshake that assigns a CPort.
- The readiness steps:
  - flow-control disable;
  - the reset before jumping to the next image;
  - the wait for the link to come up.
- The `cport_connected` flag of the firmware-over-UniPro data loader, the connect and disconnect notifications, and the loader's init loop, which polls the control CPort until the data CPort is connected.

The engine is a class, `TsbUnipro.Chip`. It holds:

- The configuration constants: `CPORT_MAX`, `CPORT_BUF_SIZE`, the receive pause/size word and `POWERSTATE_LINKUP`.
- The CPort table.
- An append-only trace of every 32-bit register access, every write to an end-of-message trigger, every attribute access, every mailbox access and every handler call. The payload bytes that `chip_unipro_send` writes into a transmit buffer are not trace events: they are updates of the buffer, a Dafny `array`.

The hardware's answers are supplied in advance as two feeds:

- the values that successive 32-bit register reads return;
- the return codes and values of successive attribute accesses.

The register file, `Chip.Registers()`, is derived from the trace: each register holds the last value written to it. This is the value software last wrote, not what the hardware reports. In particular the end-of-message status word `AHM_RX_EOM_INT_BEF_0` is write-one-to-clear in hardware: `Registers()` holds the bit that was written, not the status left after clearing it. What the hardware reports comes only from the read feed.

Every busy-wait of the source is a loop over the feed. When the feed runs out before the awaited observation, the operation ends with `StillPolling` ("the source would still be waiting").

Each method is proved against a pure specification function of the feeds:

- `ResetSpec.ResetOne` and `ResetSpec.ResetAllFrom` for the resets;
- `EngineSpec.RxPolls` for receive;
- `EngineSpec.LinkUpAt` for the link-up wait;
- `FwOverUnipro.InitAfter` for the loader's init loop.

The properties the code promises are lemmas about those functions.

Some behaviour of the source worth noting, all of it modelled as written:

- `chip_wait_for_link_up` ends its loop on a failed attribute read (`!rc &&` in the loop condition). It does not keep polling.
- `tsb_unipro_recv_cport` returns the acknowledgement's return code, and the CPort id only through `*cportid`. It stores the decremented value in `*cportid` before the range check, so the out-parameter is written even when the value is rejected.
- `chip_unipro_send` and `chip_unipro_receive` report an unknown CPort (and `chip_unipro_send` an oversize length) as -1, not as an errno such as -EINVAL.
- `tsb_reset_all_cports` returns the failing reset's code. The failing id is only logged, not returned.

## Model

| member | source | states |
|---|---|---|
| TsbUnipro.CPort.constructor | chips/tsb/src/tsb_unipro.c:38-41 | A table entry has its id, a fresh transmit and a fresh receive buffer of CPORT_BUF_SIZE bytes (distinct arrays) and its receive address |
| TsbUnipro.Chip.constructor | chips/tsb/src/tsb_unipro.c:39-46 | The table holds DECLARE_CPORT(0..3), entry i has id i; CPORT_MAX <= 4 is required (the compile-time size check); the trace starts empty |
| TsbUnipro.Chip.ReadReg | chips/tsb/src/tsb_unipro.c:169-171 | A register read returns the next feed value, consumes it and records the read |
| TsbUnipro.Chip.WriteReg | chips/tsb/src/tsb_unipro.c:173-175 | A register write appends exactly that write to the trace |
| TsbUnipro.Chip.WaitTxQueueEmpty | chips/tsb/src/tsb_unipro.c:62-67 | Polls the word CPB_TXQUEUEEMPTY_0 + ((id>>5)<<2) until bit 1<<(id&31) is set: the trace gains exactly the reads up to and including the first drained snapshot (DrainedAt); reports false only when no snapshot is drained |
| TsbUnipro.Chip.ClearConnectionAttrs | chips/tsb/src/tsb_unipro.c:75-97 | Issues the four clearing writes in order and stops at the first failing one: succeeds iff none fails, and the trace gains exactly ClearsIssued writes |
| TsbUnipro.Chip.ResetDrainedCport | chips/tsb/src/tsb_unipro.c:69-103 | After the drain: tx strobe, the clears, then the release writes; the result is 0 or -EIO as DrainedRc says |
| TsbUnipro.Chip.ResetCport | chips/tsb/src/tsb_unipro.c:53-104 | Result, trace and remaining feeds are exactly those of ResetSpec.ResetOne |
| TsbUnipro.Chip.ResetAllCports | chips/tsb/src/tsb_unipro.c:106-120 | Result, trace and remaining feeds are exactly those of ResetSpec.ResetAllFrom from CPort 0 |
| TsbUnipro.Chip.ResetBeforeJump | chips/tsb/src/tsb_unipro.c:200-202 | Has the effects of resetting all CPorts and returns nothing |
| TsbUnipro.Chip.RestartRx | chips/tsb/src/tsb_unipro.c:177-183 | Writes the CPort's buffer address to AHM_ADDRESS_00+4*id, then the pause/size word to REG_RX_PAUSE_SIZE_00+4*id, and nothing else |
| TsbUnipro.Chip.InitCport | chips/tsb/src/tsb_unipro.c:125-140 | An unknown id gives -EINVAL with no access; a known id is re-armed and gives 0 |
| TsbUnipro.Chip.RecvCport | chips/tsb/src/tsb_unipro.c:146-167 | A mailbox error is returned as is, without an ack; otherwise *cportid is set to value-1 (unsigned); a value outside 1..CPORT_MAX gives -EINVAL without an ack; otherwise the original value is acked and the ack's code returned |
| TsbUnipro.Chip.Send | chips/tsb/src/tsb_unipro.c:224-249 | An unknown id or len > CPORT_BUF_SIZE gives -1 with no register write, and only the accepted CPort's tx_buf may change (the table's other buffers, and every buffer on rejection, keep their bytes); otherwise tx_buf[0..len) equals data[0..len), bytes from len on are unchanged, the EOM trigger gets 1 and the result is 0 (len == CPORT_BUF_SIZE accepted) |
| TsbUnipro.Chip.DeliverFrame | chips/tsb/src/tsb_unipro.c:286-297 | Reads the byte count, clears the normal EOM bit, calls the handler with (id, rx_buf, count) when there is one, re-arms; returns the handler's code or 0 |
| TsbUnipro.Chip.Receive | chips/tsb/src/tsb_unipro.c:251-301 | An unknown CPort gives -1 with no access; otherwise result, trace and remaining feed are exactly those of EngineSpec.RxPolls |
| TsbUnipro.Chip.DisableAllE2efc | chips/tsb/src/tsb_unipro.c:188-191 | Writes 0 to CPB_RX_E2EFC_EN_0, then to CPB_RX_E2EFC_EN_1, and nothing else; afterwards the register file holds 0 in both enable words and is otherwise the old register file with those two writes applied |
| TsbUnipro.Chip.ResetBeforeReady | chips/tsb/src/tsb_unipro.c:196-198 | Exactly the flow-control disable: the same two writes, and both enable words read 0 in the register file afterwards |
| TsbUnipro.Chip.WaitForLinkUp | chips/tsb/src/tsb_unipro.c:208-215 | Reads TSB_POWERSTATE until a read fails or reports link-up; the trace gains exactly those reads, up to the read LinkUpAt names |
| Registers.CportOf | chips/tsb/src/tsb_unipro.c:69-70 | A register belongs to a CPort iff it is word-aligned in a per-CPort bank, and then it is that CPort's register (base + (id<<2)) |
| Registers.ShiftOneIsShift | chips/tsb/src/tsb_unipro.c:63 | The bit built by doubling equals the source's 1 << n |
| Registers.QueueEmptyPositionUnique | chips/tsb/src/tsb_unipro.c:62-63 | Each CPort's queue-empty bit is a single bit, and no two CPorts share both word and bit |
| Registers.EomBitsDisjoint | chips/tsb/src/tsb_unipro.c:274-289 | 1<<2id is a single bit and 2<<2id is the bit above it; no CPort's normal bit is any CPort's error bit, and distinct CPorts have disjoint bits, so writing eom_nom_bit to the write-one-to-clear word clears that CPort's normal bit only |
| Registers.EotBitsDisjoint | chips/tsb/src/tsb_unipro.c:276 | 1<<id is a single bit and differs between CPorts |
| ResetSpec.DrainedAt | chips/tsb/src/tsb_unipro.c:65-67 | The first drained snapshot: drained itself, none before it drained; none when no snapshot is drained |
| ResetSpec.FirstClearFailure | chips/tsb/src/tsb_unipro.c:75-97 | The first of the four clearing writes with a non-zero code, with all earlier ones at 0; none when all four succeed |
| ResetSpec.ClearEvents | chips/tsb/src/tsb_unipro.c:75-93 | Clearing write i targets the i-th of T_CONNECTIONSTATE, T_LOCALBUFFERSPACE, T_PEERBUFFERSPACE, T_CREDITSTOSEND with value 0, selector id, local |
| ResetSpec.ResetRejectsUnknownCport | chips/tsb/src/tsb_unipro.c:58-60 | id >= CPORT_MAX returns -EINVAL with no access and nothing consumed |
| ResetSpec.ResetWaitsForEmptyQueue | chips/tsb/src/tsb_unipro.c:62-73 | The reset keeps polling iff no snapshot has the bit set; otherwise its trace starts with exactly the polls up to the first drained one, then 3 written to the tx reset register |
| ResetSpec.ResetAbortsAtFailedClear | chips/tsb/src/tsb_unipro.c:75-97 | When clear f fails first, the result is -EIO after exactly f+1 clearing writes in order; the rx reset register is never written and tx reset is left at 3 |
| ResetSpec.ResetSucceeds | chips/tsb/src/tsb_unipro.c:99-103 | When all clears succeed, the result is 0, the last three writes are rx<-3, tx<-0, rx<-0, and both strobes end at 0 |
| ResetSpec.ResetOneOutcomes | chips/tsb/src/tsb_unipro.c:53-104 | A known CPort's reset returns 0 or -EIO, or is still waiting |
| ResetSpec.ResetTouchesOnlyItsCport | chips/tsb/src/tsb_unipro.c:53-104 | Every event of a reset that concerns a CPort concerns the CPort being reset |
| ResetSpec.ResetAllAfterIsFrom | chips/tsb/src/tsb_unipro.c:110-116 | The loop's step-by-step accumulation equals the recursive reset-all |
| ResetSpec.ResetAllFailFast | chips/tsb/src/tsb_unipro.c:110-119 | Reset-all returns 0 iff it got through every CPort; if the first CPort's reset fails, reset-all stops there with that reset's result; when it stops early at CPort s, its result is -EIO or still waiting, its run ends with exactly CPort s's own reset (events, result and remaining feeds) on the feeds the earlier resets left, every CPort before s had its receive strobe asserted, and no CPort after s is touched |
| ResetSpec.ResetAllStopsAtFirstFailure | chips/tsb/src/tsb_unipro.c:110-119 | When CPort i's reset does not return 0, reset-all from i stops at i with that reset's result |
| ResetSpec.StopPoint | chips/tsb/src/tsb_unipro.c:110-119 | When reset-all stops early, its events from the returned position on, its result and its remaining feeds are exactly those of the stopping CPort's reset on the returned feeds |
| ResetSpec.ResetAllCompletesEarlier | chips/tsb/src/tsb_unipro.c:110-116 | Every CPort before the one reset-all stopped at completed its reset: its receive reset strobe was written |
| ResetSpec.ResetAllAscending | chips/tsb/src/tsb_unipro.c:110 | CPorts are reset in ascending order: no event about a lower CPort follows one about a higher CPort |
| EngineSpec.E2efcOffClearsBothWords | chips/tsb/src/tsb_unipro.c:188-191 | After the disable both enable words hold 0 and every other register keeps its value |
| EngineSpec.Classify | chips/tsb/src/tsb_unipro.c:278-298 | The poll verdict is error iff the error bit is set, overflow iff not error and the EOT bit is set, frame iff neither and the normal bit is set, idle otherwise |
| EngineSpec.RxPollsAfterIsPolls | chips/tsb/src/tsb_unipro.c:270-300 | The loop's step-by-step accumulation equals the recursive receive specification |
| EngineSpec.RxNoEffectsUnlessFrame | chips/tsb/src/tsb_unipro.c:270-300 | Without a frame a receive only reads the two status words; error and overflow give -1; a non-blocking idle poll gives 0 after exactly one poll; a blocking receive never returns on idle |
| EngineSpec.RxFrameDispatch | chips/tsb/src/tsb_unipro.c:286-297 | A receive that ends on a frame is status polls followed by exactly the frame events for some byte count n, and returns the handler's result for n (0 without a handler) |
| EngineSpec.RxLastPollDecides | chips/tsb/src/tsb_unipro.c:270-300 | A receive that returns was decided by its last poll: every earlier poll read the end-of-message then the end-of-transfer word and classified as idle; the verdict is the classification of the last two words read; only a frame is followed by further events, exactly the frame events for the byte count read next, with the handler's result |
| EngineSpec.LinkUpAt | chips/tsb/src/tsb_unipro.c:211-214 | The read that ends the wait ends it (fails or reports link-up) and no earlier read did |
| EngineSpec.LinkUpExitCondition | chips/tsb/src/tsb_unipro.c:211-214 | The wait ends at read i iff read i fails or reports link-up and every earlier read succeeded with another state |
| EngineSpec.MailboxCport | chips/tsb/src/tsb_unipro.c:155 | --cport_recv in unsigned 32-bit arithmetic: the result is (value - 1) reduced modulo 2^32, below 2^32 |
| EngineSpec.DecodeAssignment | chips/tsb/src/tsb_unipro.c:155-159 | An assignment is accepted iff 1 <= value <= CPORT_MAX, and then names CPort value-1 |
| EngineSpec.AckValue | chips/tsb/src/tsb_unipro.c:166 | The acknowledgement value is 16 bits wide |
| EngineSpec.AckEchoesMailboxValue | chips/tsb/src/tsb_unipro.c:155-166 | For an accepted assignment the ack value equals the value read from the mailbox |
| FwOverUnipro.Disconnect | common/src/unipro.c:52-57 | Disconnect leaves the flag unchanged and calls nothing; it returns 0 iff connected and -1 iff not |
| FwOverUnipro.ConnectOutcomes | common/src/unipro.c:39-50 | Connect always leaves the flag set; it returns 0 iff the flag was clear, in which case it initialises the data CPort exactly once; otherwise it returns -1 and calls nothing |
| FwOverUnipro.SecondConnectRefused | common/src/unipro.c:40-49 | After a connect, a second connect returns -1 and calls nothing, and a disconnect returns 0 |
| FwOverUnipro.InitKeepsEarlierCalls | common/src/unipro.c:63-69 | Init only appends calls |
| FwOverUnipro.InitConnectedOnEntry | common/src/unipro.c:63-71 | With the flag already set, init returns 0 without calling receive |
| FwOverUnipro.InitOutcomes | common/src/unipro.c:59-72 | Init returns 0 only when connected; -1 only right after a receive on the control CPort returned -1; otherwise it is still polling, unconnected, with the receives used up; the flag is never cleared |
| FwOverUnipro.InitStopsOnMinusOne | common/src/unipro.c:64-67 | A receive returning exactly -1 ends init with -1 at once |
| FwOverUnipro.InitPollsOnOtherCodes | common/src/unipro.c:63-69 | A receive with any other code that does not connect leaves init polling |
| FwOverUnipro.InitInitialisesAtMostOnce | common/src/unipro.c:46-69 | Init initialises the data CPort once if it connects it and never otherwise |
| FwOverUnipro.DataLoader.constructor | common/src/unipro.c:38 | The flag starts at 0 |
| FwOverUnipro.DataLoader.Connected | common/src/unipro.c:39-50 | Return code, flag and calls are those of Connect |
| FwOverUnipro.DataLoader.Disconnected | common/src/unipro.c:52-57 | Returns Disconnect's code and changes nothing |
| FwOverUnipro.DataLoader.ReceiveControl | common/src/unipro.c:64 | One receive on the control CPort: its handler may deliver the connect notification; the call is recorded with its code |
| FwOverUnipro.DataLoader.Init | common/src/unipro.c:59-72 | Result, calls, flag and remaining receives are exactly those of InitAfter |
| FwOverUnipro.DataLoader.Load | common/src/unipro.c:74-76 | Returns 0 for any arguments and changes nothing |

## Left out

- Memory-mapped I/O: `getreg32`, `putreg32` and the `putreg8` to the end-of-message trigger are modelled as events in a trace and a feed of read values. Volatility and ordering with respect to the hardware are not modelled.
- Chip.Send: the payload `putreg8` writes into `tx_buf` are updates of an array, not trace events, so the model does not capture that the payload is written before the end-of-message trigger is hit.
- Logging (`dbgprint`, `dbgprintx32`) has no effect and is not modelled.
- Register offsets and header constants (`AIO_UNIPRO_BASE`, the window bases, `CPORT_MAX`, `CPORT_BUF_SIZE`, `RX_PAUSE_RESTART | CPORT_RX_BUF_SIZE`, `POWERSTATE_LINKUP`, `FW_OVER_UNIPRO_CPORT`, `CONTROL_CPORT`) are defined in headers that are not part of this model. They are symbolic: a register is a window and a byte offset, and the windows are taken not to overlap.
- `cport_handle`, `DECLARE_CPORT` and `CPORT_EOM_BIT` are not part of this model. A CPort is found exactly when its id is below `CPORT_MAX`, so the `!cport` checks after a range check cannot fire. Receive, which has no range check of its own, returns -1 for ids from `CPORT_MAX` on.
- `chip_unipro_attr_write`, `chip_unipro_attr_read`, `read_mailbox`, `ack_mailbox` and the receive handler are external. Their outcomes come from the feeds or from method parameters. The handler is a pure function value: its side effects are not modelled.
- The contents of the receive buffer are written by the hardware. They are not modelled beyond passing the buffer to the handler.
- The `(uint32_t)cport->rx_buf` cast is a physical address. It is an opaque per-CPort value.
- The unbounded busy-waits (queue empty, blocking receive, link-up, loader init) are modelled over finite feeds. Waiting forever appears as `StillPolling` (or `false`) once the feed is exhausted.
- The loader calls `chip_unipro_receive` with two arguments while the TSB engine defines three. The loader treats receive as an abstract callee whose steps are a return code and whether its handler delivered the connect notification.
- `cport_connected` is an `int` that only ever holds 0 or 1. It is a `bool`.
- FwOverUnipro.DataLoader.Finish: `data_load_unipro_finish` does nothing, so the method has no contract to state.
- `common/include/tftf.h` (image container layout) and `chips/es1tsb/src/es1_unipro.c` (ES1 stubs) are not part of this model. The ES1 stubs returning 0 correspond to a feed that is empty.
