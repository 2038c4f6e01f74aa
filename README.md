# Tock capsules: a Dafny model

This project models a group of Tock kernel drivers ("capsules") and one chip's interrupt
service loop, and proves properties of them:

- **InstrumentedTakeCell** (`TakeCells`): a single-slot cell whose value is moved out and put
  back. Its `instrumented_map` also drives the PA16 debug pin around each step.
- **MCP23008** (`Mcp23008`): the I2C GPIO extender. Each pin operation is a
  read-modify-write of one chip register, stepped by the bus completion handler through the
  `Select*` → `Read*` → `Done` phases. Per-pin interrupt settings are packed one nibble per
  pin in a 32-bit word. An interrupt scan reports the lowest pin that fires.
- **PCA9544A** (`Pca9544a`): the I2C multiplexer. It builds the channel-selection command
  and decodes the two fields of its control register.
- **FXOS8700CQ** (`Fxos8700cq`): the accelerometer.
  - A read takes four bus phases; the final one turns raw samples into milli-g.
  - One process owns the sensor at a time. Requests from other processes are queued in
    their grant records and run, in process-table order, when the owner's reading arrives.
- **Virtual nine-DOF** (`VirtualNineDof`): the virtualizer that gives one process at a time
  a downstream sensor driver and forwards queued requests when a reading arrives.
- **GPIO async** (`GpioAsync`): the system-call driver over a list of asynchronous GPIO
  ports. It unpacks a command's data word and dispatches to the port.
- **nRF51822 serialization** (`Nrf51822Serialization`): the UART channel to the radio
  co-processor.
  - It keeps one process record, with its transmit and receive slices and its callback.
  - It copies the transmit slice into the kernel's transmit buffer.
  - It copies received bytes into the process's receive slice.
- **SAM4L chip** (`Sam4lChip`): the deferred-interrupt queue, a ring buffer of 100 NVIC line
  identifiers. `service_pending_interrupts` drains it in FIFO order, runs the matching
  peripheral handler and re-enables the line.

`Kernel` holds the shared vocabulary:

- `Option`;
- callbacks and the upcalls they schedule;
- process identities and grant regions, modelled as one optional record per process slot;
- `ReturnCode`;
- the GPIO mode enumerations;
- the machine-word conversions `as usize`, `as u8` and the signed read-back.

Drivers whose fields change in place are classes:

- Their buffers are `array<bv8>` held in a take cell.
- A `Valid()` predicate ties each cell to the driver's static buffer and to the driver's
  phase.
- What a driver does outside itself becomes an event appended to a ghost `trace`. This
  covers I2C enable/write/read/disable, UART transfers, debug-pin edges, client
  `done`/`fired` calls, scheduled upcalls, handler dispatch and NVIC re-enable.

Each state-changing method is specified against pure functions of the old state, and the
properties are proved about those functions. Examples:

- `Mcp23008.CompletionEvents`;
- `Fxos8700cq.Drain`;
- `VirtualNineDof.FirstPending`;
- `Sam4lChip.ServiceTrace`.

Behaviour modelled exactly as the code has it:

- FXOS8700CQ: a command other than 0 from an idle driver still makes the caller the owner.
  When the queued requests include no read, the scan also leaves an owner behind. In both
  cases later requests are only queued.
- FXOS8700CQ deactivation sets only `buffer[0] = 0`, the register address, and writes two
  bytes. The second byte is left over from the read: the X-axis low byte. The CTRL_REG1
  address is not used.
- MCP23008 `get_pin_interrupt_enabled_state` always yields 0, so every GPINTEN write from
  `disable_interrupt_pin` and from the interrupt-enable completion disables every pin (see
  "## Findings").
- MCP23008 `enable_input`'s pull-up step never starts, because the direction step has
  already taken the buffer.
- nRF51822 serialization starts reception only from a subscribe that finds no record. After
  an earlier `allow`, the record exists, so the first subscribe only stores the callback and
  reception is never started.
- The MCP23008 interrupt paths do not range-check the pin. With the release build's masked
  shifts, pin 8 aliases pin 0.

## Model

| member | source | states |
|---|---|---|
| TakeCells.InstrumentedTakeCell.Empty | capsules/src/instrumented_takecell.rs:19-22 | an empty cell is created |
| TakeCells.InstrumentedTakeCell.New | capsules/src/instrumented_takecell.rs:24-26 | a cell holding the value is created |
| TakeCells.InstrumentedTakeCell.IsNone | capsules/src/instrumented_takecell.rs:28-30 | true exactly when the cell is empty |
| TakeCells.InstrumentedTakeCell.IsSome | capsules/src/instrumented_takecell.rs:32-34 | true exactly when the cell holds a value, the complement of `is_none` |
| TakeCells.InstrumentedTakeCell.Take | capsules/src/instrumented_takecell.rs:43-55 | returns the previous contents and leaves the cell empty |
| TakeCells.InstrumentedTakeCell.Put | capsules/src/instrumented_takecell.rs:57-63 | the cell equals the argument afterwards; `put(None)` empties it |
| TakeCells.InstrumentedTakeCell.Replace | capsules/src/instrumented_takecell.rs:67-74 | returns the previous contents and leaves exactly `Some(v)` |
| TakeCells.InstrumentedTakeCell.Map | capsules/src/instrumented_takecell.rs:87-105 | an empty cell yields `None`, is not touched and the closure does not run; a full cell yields the closure's result and holds the updated value |
| TakeCells.InstrumentedTakeCell.InstrumentedMap | capsules/src/instrumented_takecell.rs:107-141 | same cell effect and result as `map`; the PA16 pin sees the edges of `InstrumentedEdges` (4 when empty, 10 when full) |
| TakeCells.InstrumentedEdges | capsules/src/instrumented_takecell.rs:107-141 | the PA16 edge sequence has 4 or 10 entries, starts with a clear and ends with a set |
| TakeCells.InstrumentedTakeCell.MapOr | capsules/src/instrumented_takecell.rs:144-153 | `default` on an empty cell, otherwise the closure's result with the updated value reinstalled |
| TakeCells.InstrumentedTakeCell.ModifyOrReplace | capsules/src/instrumented_takecell.rs:155-167 | the cell is never empty afterwards: `modify(old)` if a value was present, else `mkval()` |
| TakeCells.TakeTwice | capsules/src/instrumented_takecell.rs:43-55 | a second `take` with no `replace` in between returns `None` |
| TakeCells.MapThenTake | capsules/src/instrumented_takecell.rs:96-105 | a mutation made through `map` is what a later `take` returns |
| Mcp23008.PinMask | capsules/src/mcp23008.rs:274-278 | `1 << pin` is a single set bit |
| Mcp23008.WithBit | capsules/src/mcp23008.rs:274-278 | the or / and-not write-back changes only the pin's bit, which ends set exactly when requested |
| Mcp23008.Toggled | capsules/src/mcp23008.rs:319-325 | the xor write-back flips the pin's bit and keeps every other bit |
| Mcp23008.ToggleTwiceRestores | capsules/src/mcp23008.rs:319-325 | toggling twice gives back the original byte |
| Mcp23008.PinValue | capsules/src/mcp23008.rs:331-332 | the value `read` reports is 0 or 1, and 1 exactly when the pin's bit is set |
| Mcp23008.NibbleShift | capsules/src/mcp23008.rs:221-230 | `4 * pin`, computed on a u8 and masked as a u32 shift, is a nibble boundary below 32 and is `4 * pin` for pins 0-7 |
| Mcp23008.NibbleValue | capsules/src/mcp23008.rs:226 | the saved nibble is below 16; bit 0 is the enable flag and bits 1-2 are the edge code |
| Mcp23008.SaveNibble | capsules/src/mcp23008.rs:221-230 | `save_pin_interrupt_state` changes only the pin's nibble, which becomes `(enabled \| dir << 1) & 0xF` |
| Mcp23008.ClearNibble | capsules/src/mcp23008.rs:232-235 | `remove_pin_interrupt_state` zeroes the pin's nibble and keeps every other bit |
| Mcp23008.PinInterruptEnabled | capsules/src/mcp23008.rs:249-251 | bit 0 of the pin's nibble, at the release build's wrapped shift; its properties are stated by `QueriesReadTheNibble`, `SaveThenQuery` and `PinEightAliasesPinZero` |
| Mcp23008.PinInterruptDirection | capsules/src/mcp23008.rs:253-260 | a stored edge code 0, 1, 2 decodes to the mode whose `as u8` code it is; code 3 reads as either edge |
| Mcp23008.QueriesReadTheNibble | capsules/src/mcp23008.rs:249-260 | both queries read only the pin's nibble |
| Mcp23008.SaveThenQuery | capsules/src/mcp23008.rs:221-260 | after saving, `check_pin_interrupt_enabled` and `get_pin_interrupt_direction` report what was saved |
| Mcp23008.RemoveThenQuery | capsules/src/mcp23008.rs:232-260 | after removing, the pin reports disabled and a rising edge |
| Mcp23008.OtherPinsUnaffected | capsules/src/mcp23008.rs:221-260 | words that differ only in pin p's nibble answer alike for every pin whose nibble is elsewhere |
| Mcp23008.PinEightAliasesPinZero | capsules/src/mcp23008.rs:221-251 | with no range check, pin 8 reads and writes pin 0's nibble |
| Mcp23008.EnabledMaskAsWritten | capsules/src/mcp23008.rs:238-247 | `get_pin_interrupt_enabled_state` as written always yields 0 |
| Mcp23008.AsWrittenMaskMissesEnabledPin | capsules/src/mcp23008.rs:238-247 | with pin 0's interrupt enabled, the mask as written leaves bit 0 clear while the intended mask sets it |
| Mcp23008.OrPinBit | capsules/src/mcp23008.rs:242-244 | or-ing in a pin's bit changes that bit alone, and sets it exactly when the pin is enabled |
| Mcp23008.BelowStep | capsules/src/mcp23008.rs:241-245 | one more loop step adds exactly the next pin's bit to the mask |
| Mcp23008.EnabledMaskBelowBits | capsules/src/mcp23008.rs:241-245 | after the pins below n, bit i of the mask is set exactly when i < n and pin i is enabled |
| Mcp23008.EnabledMaskBits | capsules/src/mcp23008.rs:237-247 | the corrected mask has bit i set exactly when pin i's interrupt is enabled, for every pin 0-7 |
| Mcp23008.ComputeEnabledMask | capsules/src/mcp23008.rs:238-247 | the corrected loop (`\|=` in place of `&=`) computes exactly `EnabledMask`, so by `EnabledMaskBits` bit i is set exactly when pin i is enabled |
| Mcp23008.FirstSetIsLowest | capsules/src/mcp23008.rs:359-391 | the scan from index i finds the lowest reporting pin at or above i, and none exactly when no such pin reports |
| Mcp23008.LowestFiringPinIsLowest | capsules/src/mcp23008.rs:356-391 | at most one pin is reported: the lowest pin that is enabled, is flagged in INTF and whose level matches its edge |
| Mcp23008.FirstFiringPin | capsules/src/mcp23008.rs:359-391 | the loop with its early return computes exactly `LowestFiringPin` |
| Mcp23008.FiredIdentifier | capsules/src/mcp23008.rs:384-386 | the reported identifier has the port identifier's low byte in bits 0-7 and the pin above |
| Mcp23008.SuccessorProgresses | capsules/src/mcp23008.rs:265-407 | every phase other than Idle steps one closer to Idle, and at most three completions are needed |
| Mcp23008.ClientCallsAppend | capsules/src/mcp23008.rs:265-407 | client calls in concatenated event runs add up |
| Mcp23008.OneClientCallAtTheEnd | capsules/src/mcp23008.rs:330-404 | a completion calls the client at most once, and only on the step that returns to Idle; `ReadGpioRead` and `Done` call it exactly when a client is set |
| Mcp23008.WriteBackChangesOnlyThePin | capsules/src/mcp23008.rs:271-325 | each write-back targets the register that was read, and the byte written differs from the byte read only in the pin's bit |
| Mcp23008.MCP23008.constructor | capsules/src/mcp23008.rs:72-82 | Idle, buffer in its cell, no interrupt settings, no client |
| Mcp23008.MCP23008.SetClient | capsules/src/mcp23008.rs:87-90 | stores the client and the identifier; nothing else changes |
| Mcp23008.MCP23008.EnableHostInterrupt | capsules/src/mcp23008.rs:92-101 | with a host pin, makes it an input with a rising-edge interrupt and returns 0; without one, returns -1 |
| Mcp23008.MCP23008.Start | capsules/src/mcp23008.rs:110-123 | with no buffer nothing happens; otherwise the buffer is staged, I2C is enabled, one register-address byte is written and the phase is set |
| Mcp23008.MCP23008.SetDirection | capsules/src/mcp23008.rs:110-123 | starts the IODIR read-modify-write with the pin and the direction byte, or does nothing without a buffer |
| Mcp23008.MCP23008.ConfigurePullup | capsules/src/mcp23008.rs:125-138 | starts the GPPU read-modify-write, or does nothing without a buffer |
| Mcp23008.MCP23008.SetPin | capsules/src/mcp23008.rs:140-153 | starts the GPIO read-modify-write, or does nothing without a buffer |
| Mcp23008.MCP23008.TogglePin | capsules/src/mcp23008.rs:155-167 | starts the GPIO toggle, or does nothing without a buffer |
| Mcp23008.MCP23008.ReadPin | capsules/src/mcp23008.rs:169-181 | starts the GPIO read, or does nothing without a buffer |
| Mcp23008.MCP23008.EnableInterruptPin | capsules/src/mcp23008.rs:183-203 | saves the pin's mode and starts the three-byte write from INTCON (INTCON = 0, IOCON = 0x02); GPINTEN is written at a later completion; does nothing without a buffer |
| Mcp23008.MCP23008.DisableInterruptPin | capsules/src/mcp23008.rs:205-219 | forgets the pin's mode and writes GPINTEN with the mask as written, which is 0, or does nothing without a buffer |
| Mcp23008.MCP23008.Disable | capsules/src/mcp23008.rs:432-436 | makes the pin an input with no range check and always returns 0 |
| Mcp23008.MCP23008.EnableOutput | capsules/src/mcp23008.rs:438-445 | -1 and no change for pin > 7; otherwise 0 and the direction write-back starts |
| Mcp23008.MCP23008.EnableInput | capsules/src/mcp23008.rs:447-465 | -1 and no change for pin > 7; otherwise 0 and only the direction step starts |
| Mcp23008.MCP23008.Read | capsules/src/mcp23008.rs:467-474 | -1 and no change for pin > 7; otherwise 0 and the pin read starts |
| Mcp23008.MCP23008.Toggle | capsules/src/mcp23008.rs:476-483 | -1 and no change for pin > 7; otherwise 0 and the toggle starts |
| Mcp23008.MCP23008.Set | capsules/src/mcp23008.rs:485-492 | -1 and no change for pin > 7; otherwise 0 and the pin is driven high |
| Mcp23008.MCP23008.Clear | capsules/src/mcp23008.rs:494-501 | -1 and no change for pin > 7; otherwise 0 and the pin is driven low |
| Mcp23008.MCP23008.EnableInterrupt | capsules/src/mcp23008.rs:503-510 | -1 and no change without a host interrupt pin; otherwise 0 and the interrupt is enabled for the pin, with no range check |
| Mcp23008.MCP23008.DisableInterrupt | capsules/src/mcp23008.rs:512-515 | always 0, with no range check; the pin's mode is forgotten and GPINTEN is written as 0 |
| Mcp23008.MCP23008.Fired | capsules/src/mcp23008.rs:411-428 | starts reading INTF, or does nothing without a buffer |
| Mcp23008.MCP23008.RequestRead | capsules/src/mcp23008.rs:267-353 | a `Select*` or `ReadInterruptSetup` completion reads one register (three for the interrupt registers) and moves to the matching `Read*` phase |
| Mcp23008.MCP23008.NewRegister | capsules/src/mcp23008.rs:271-349 | the register and byte written back are those `CompletionBuffer` places in the buffer: the pin's bit updated for the read-modify-write phases, and GPINTEN with the mask as written (0) for the interrupt-enable phase; nothing changes |
| Mcp23008.MCP23008.WriteBack | capsules/src/mcp23008.rs:271-349 | a read-modify-write or interrupt-enable phase leaves `CompletionBuffer`'s bytes, writes the first two and moves to Done; the interrupt-enable phase writes GPINTEN as 0 |
| Mcp23008.MCP23008.FinalEvents | capsules/src/mcp23008.rs:330-404 | the final phase's events are exactly `CompletionEvents`: the client call when a client is set, then the bus disabled; nothing changes |
| Mcp23008.MCP23008.Finish | capsules/src/mcp23008.rs:330-404 | the final phase puts the buffer back, returns to Idle and appends `CompletionEvents` |
| Mcp23008.MCP23008.CommandComplete | capsules/src/mcp23008.rs:265-407 | the phase advances by `Successor`, the buffer and the events are those of `CompletionBuffer`/`CompletionEvents` (GPINTEN written as 0 after an interrupt enable), and a completion while Idle changes nothing |
| Pca9544a.ChannelsBelowSpec | capsules/src/pca9544a.rs:62-69 | channel bytes are `i + 4` for exactly the set bits i, in increasing order, at most one per channel |
| Pca9544a.ChannelCommandSpec | capsules/src/pca9544a.rs:58-71 | the command is byte 0 followed by the selected channel bytes; its length is 1 + the number of set bits in `mask & 0xF`, at most 5 |
| Pca9544a.StageChannelCommand | capsules/src/pca9544a.rs:58-69 | the loop leaves exactly `ChannelCommand(mask)` in the buffer and returns its length |
| Pca9544a.DisableAllWritesZero | capsules/src/pca9544a.rs:150 | selecting mask 0 sends the single byte 0 |
| Pca9544a.ControlValue | capsules/src/pca9544a.rs:103-106 | the interrupt mask is below 16 and the selected channels are below 8 |
| Pca9544a.ControlFieldsCoverRegister | capsules/src/pca9544a.rs:103-106 | the two fields and bit 3 reassemble the register byte |
| Pca9544a.UpcallIdentifiesRequest | capsules/src/pca9544a.rs:108-118 | the upcall's first argument is 0 for a selection and `field + 1` for a read; the second carries the decoded field or 0 |
| Pca9544a.PCA9544A.constructor | capsules/src/pca9544a.rs:42-48 | Idle with the buffer in its cell |
| Pca9544a.PCA9544A.SelectChannels | capsules/src/pca9544a.rs:54-76 | ENOMEM and no change without a buffer; otherwise SUCCESS, and the channel command is written and the phase is Done |
| Pca9544a.PCA9544A.ReadControlRegister | capsules/src/pca9544a.rs:78-96 | ENOMEM and no change without a buffer; otherwise SUCCESS, and a one-byte read is started |
| Pca9544a.PCA9544A.CommandComplete | capsules/src/pca9544a.rs:100-125 | a handled completion schedules the identifying upcall, returns the buffer, disables I2C and goes Idle; a completion while Idle changes nothing |
| Pca9544a.PCA9544A.Subscribe | capsules/src/pca9544a.rs:129-139 | 0 stores the callback; other numbers return -1 and change nothing |
| Pca9544a.PCA9544A.Command | capsules/src/pca9544a.rs:141-161 | 0 → 0; 1 → select(data as u8); 2 → select(0); 3 and 4 → read a field; results negated; other numbers → -1 |
| Fxos8700cq.Signed16 | capsules/src/fxos8700_cq.rs:110-112 | the two bytes as an i16: in range, and congruent to the byte pattern |
| Fxos8700cq.MilliG | capsules/src/fxos8700_cq.rs:110-116 | the scaled 14-bit sample lies in [-1998, 1998] and keeps the raw sign |
| Fxos8700cq.AxisValue | capsules/src/fxos8700_cq.rs:110-120 | an axis reading lies in [-1998, 1998] |
| Fxos8700cq.OneG | capsules/src/fxos8700_cq.rs:110-116 | +1 g (0x4000) reads 999, -1 g (0xC000) reads -999 and 0 reads 0 |
| Fxos8700cq.TruncDivMonotone | capsules/src/fxos8700_cq.rs:114-116 | truncating division by 1000 is monotone |
| Fxos8700cq.MilliGMonotone | capsules/src/fxos8700_cq.rs:110-116 | a larger raw sample never gives a smaller acceleration |
| Fxos8700cq.ReadingReachesTheProcess | capsules/src/fxos8700_cq.rs:120-137 | the reading fits the `i16` it is stored in, so the `as i16` cast is lossless, and reading the `usize` argument back as signed gives it back |
| Fxos8700cq.DrainStartsFirstRunnable | capsules/src/fxos8700_cq.rs:143-172 | the scan starts a read exactly when a queued read exists, and the one it starts is the first in process order |
| Fxos8700cq.DrainClearsVisited | capsules/src/fxos8700_cq.rs:143-172 | each queued request the scan passes, up to and including the one it starts, is dequeued and becomes the owner; later slots are untouched |
| Fxos8700cq.DrainWithoutReadKeepsOwner | capsules/src/fxos8700_cq.rs:143-172 | with queued requests but no read among them, no read starts yet the last one visited is left as owner |
| Fxos8700cq.AdvanceReachesDeactivating | capsules/src/fxos8700_cq.rs:98-121 | three completions from Enabling reach Deactivating, carrying the three converted axes |
| Fxos8700cq.Fxos8700cq.constructor | capsules/src/fxos8700_cq.rs:70-78 | Enabling, with the buffer in its cell and no owner |
| Fxos8700cq.Fxos8700cq.StartReadAccel | capsules/src/fxos8700_cq.rs:80-89 | enables I2C, writes WHO_AM_I and reads one byte; the phase is Enabling and the bus holds the buffer |
| Fxos8700cq.Fxos8700cq.Advance | capsules/src/fxos8700_cq.rs:98-121 | phase and events follow `AdvanceState`/`AdvanceEvents` |
| Fxos8700cq.Fxos8700cq.DrainPending | capsules/src/fxos8700_cq.rs:143-172 | the loop with its `break` computes exactly `Drain` from the first slot |
| Fxos8700cq.Fxos8700cq.FinishRead | capsules/src/fxos8700_cq.rs:122-172 | the buffer is returned, the owner gets the upcall (x, y, z) as usize and is released, and then the queue is drained |
| Fxos8700cq.Fxos8700cq.CommandComplete | capsules/src/fxos8700_cq.rs:93-181 | completions step the read by `AdvanceState`/`AdvanceEvents`; the final one disables I2C, schedules the owner's upcall with (x, y, z) as usize and drains the queue, ending in Enabling with a new read started or in Disabled with the buffer back; a completion while Disabled changes nothing |
| Fxos8700cq.Fxos8700cq.Subscribe | capsules/src/fxos8700_cq.rs:185-196 | 0 stores the callback in the caller's record; -1 without a grant or for other numbers |
| Fxos8700cq.Fxos8700cq.Command | capsules/src/fxos8700_cq.rs:198-219 | idle: the caller becomes owner, and command 0 starts a read and returns 0 while other commands return -1; busy: the command is queued, overwriting any earlier one, and -10 is returned; -1 without a grant |
| VirtualNineDof.FirstPendingIsLowest | capsules/src/virtual_ninedof.rs:74-88 | the scan picks the lowest slot with a queued request, and none exactly when none is queued |
| VirtualNineDof.NineDof.constructor | capsules/src/virtual_ninedof.rs:34-40 | no records and no owner |
| VirtualNineDof.NineDof.EnqueueCommand | capsules/src/virtual_ninedof.rs:42-57 | free: the caller becomes owner, the command is forwarded and its status is returned even on failure; owned: the command and argument are stored and queued and 0 is returned; -1 without a grant |
| VirtualNineDof.NineDof.StartFirstPending | capsules/src/virtual_ninedof.rs:74-88 | the first queued request is dequeued, its process becomes owner and its stored (command, arg1) is forwarded |
| VirtualNineDof.NineDof.Callback | capsules/src/virtual_ninedof.rs:61-89 | the owner's flag is cleared, its upcall gets the three arguments unchanged, the owner is released and the first queued request is started |
| VirtualNineDof.NineDof.Subscribe | capsules/src/virtual_ninedof.rs:93-104 | 0 stores the callback in the caller's record; otherwise -1 |
| VirtualNineDof.NineDof.Command | capsules/src/virtual_ninedof.rs:106-122 | 0 → 0 and anything other than 1 or 100 → -1, with no change; 1 and 100 behave as `enqueue_command`: -1 without a grant; free: the caller's record is allocated, it becomes owner and the command is forwarded; owned: only the caller's record changes, to a queued (command, arg1) |
| VirtualNineDof.CallbackForwardsEachRequestOnce | capsules/src/virtual_ninedof.rs:61-89 | across a callback no queued request is lost or forwarded twice: the released owner's request is dropped, the forwarded process was queued and leaves the queue, every other process keeps its request, and nothing is forwarded only when no other process was queued |
| GpioAsync.Decode | capsules/src/gpio_async.rs:78-80 | port and pin are bytes and `other` is 16 bits |
| GpioAsync.DecodeEncode | capsules/src/gpio_async.rs:78-80 | fields in range survive packing and decoding |
| GpioAsync.EncodeDecode | capsules/src/gpio_async.rs:78-80 | a 32-bit data word is exactly its three fields |
| GpioAsync.Command | capsules/src/gpio_async.rs:77-122 | 0 reports the number of ports; other commands with an out-of-range port give -1 without calling a port; on an existing port, 1-4, 6, 8 and 9 always call the named operation with the decoded pin, and 5 and 7 call it exactly when the configuration byte is at most 2; unknown commands give -1 |
| GpioAsync.ConfigureInputPin | capsules/src/gpio_async.rs:23-34 | configurations above 2 give -1 without a call; 0, 1, 2 ask the port to make the pin an input with PullUp, PullDown, PullNone |
| GpioAsync.ConfigureInterrupt | capsules/src/gpio_async.rs:35-46 | configurations above 2 give -1 without a call; 0, 1, 2 ask the port for a Rising, Falling, Either edge interrupt with the port index as identifier |
| GpioAsync.ConfigurationIsChecked | capsules/src/gpio_async.rs:23-47 | configurations above 2 give -1; 0, 1, 2 select PullUp/PullDown/PullNone or Rising/Falling/Either; the port index is the interrupt identifier |
| GpioAsync.Mcp23008IdentifierDecodes | capsules/src/gpio_async.rs:51-55 | the identifier the MCP23008 reports decodes back to the port index and the pin that fired |
| GpioAsync.GPIOAsync.constructor | capsules/src/gpio_async.rs:16-21 | no callback yet |
| GpioAsync.GPIOAsync.Subscribe | capsules/src/gpio_async.rs:65-75 | 0 stores the callback; otherwise -1 and no change |
| GpioAsync.GPIOAsync.Fired | capsules/src/gpio_async.rs:51-55 | schedules (1, id, 0) when a callback is set, and nothing otherwise |
| GpioAsync.GPIOAsync.Done | capsules/src/gpio_async.rs:57-61 | schedules (0, value, 0) when a callback is set, and nothing otherwise |
| Nrf51822Serialization.Notify | capsules/src/nrf51822_serialization.rs:224-249 | an upcall is scheduled exactly when a record with a callback exists, and it carries the given code |
| Nrf51822Serialization.CopyLen | capsules/src/nrf51822_serialization.rs:72-76 | the copied length is `min(rx_len, slice length)` |
| Nrf51822Serialization.ReceptionNotifies | capsules/src/nrf51822_serialization.rs:69-97 | a reception reaches the process exactly when it shared a receive slice and subscribed, with the full `rx_len` in the upcall |
| Nrf51822Serialization.CopyPrefix | capsules/src/nrf51822_serialization.rs:83-85 | the copy loop (also the transmit copy at lines 210-212) writes the source's first n bytes and leaves the rest of the destination unchanged |
| Nrf51822Serialization.Nrf51822Serialization.constructor | capsules/src/nrf51822_serialization.rs:36-46 | no record; both kernel buffers are in their cells |
| Nrf51822Serialization.Nrf51822Serialization.Allow | capsules/src/nrf51822_serialization.rs:107-151 | 0 sets the receive slice and zeroes the counters; 1 sets the transmit slice; both create the record if needed and keep its other fields; other types → -1 and no change |
| Nrf51822Serialization.Nrf51822Serialization.Subscribe | capsules/src/nrf51822_serialization.rs:161-191 | 0 stores the callback; a subscribe that finds no record (no earlier allow or subscribe) also starts reception of 250 bytes; other types → -1 and no change |
| Nrf51822Serialization.Nrf51822Serialization.Command | capsules/src/nrf51822_serialization.rs:197-234 | 0: -1 without a record, -2 without a transmit slice, otherwise the slice is consumed, copied and transmitted in full and 0 is returned; 9001 schedules (17, 0, 0) and returns 0; others → -1 |
| Nrf51822Serialization.Nrf51822Serialization.TransmitComplete | capsules/src/nrf51822_serialization.rs:240-250 | the transmit buffer returns to its cell and (1, 0, 0) is scheduled |
| Nrf51822Serialization.Nrf51822Serialization.InsideReceiveClosure | capsules/src/nrf51822_serialization.rs:69-98 | copies `min(rx_len, slice length)` received bytes into the receive slice under PC09 and schedules (4, rx_len, 0); the record is unchanged |
| Nrf51822Serialization.Nrf51822Serialization.MapReceiveClosure | capsules/src/nrf51822_serialization.rs:335-337 | the receive closure runs through `instrumented_map`, with its PA16 edges |
| Nrf51822Serialization.Nrf51822Serialization.ReceiveComplete | capsules/src/nrf51822_serialization.rs:253-396 | the buffer comes back, received bytes are delivered, and reception restarts with the same buffer |
| Sam4lChip.Dispatch | chips/sam4l/src/chip.rs:75-126 | GPIO lines, and only they, go to a GPIO controller: the controller for their bank of four; only unlisted lines have no handler |
| Sam4lChip.DispatchManyToOne | chips/sam4l/src/chip.rs:75-126 | two different lines share a handler only when both are GPIO lines of one bank, or both are unlisted |
| Sam4lChip.ServiceTraceShape | chips/sam4l/src/chip.rs:74-128 | for each queued line, in FIFO order, its handler runs and then the line is re-enabled, exactly once, including lines with no arm; nothing else happens |
| Sam4lChip.ServiceTraceAppend | chips/sam4l/src/chip.rs:74-128 | servicing a concatenation is servicing its parts in turn |
| Sam4lChip.RingBuffer.constructor | chips/sam4l/src/chip.rs:27 | an empty queue over the given array |
| Sam4lChip.RingBuffer.HasElements | chips/sam4l/src/chip.rs:133 | true exactly when the queue is non-empty |
| Sam4lChip.RingBuffer.Enqueue | chips/sam4l/src/chip.rs:20-22 | the line is appended at the back of the queue declared here; the producer that enqueues is outside chip.rs |
| Sam4lChip.RingBuffer.Dequeue | chips/sam4l/src/chip.rs:74 | `None` on an empty queue; otherwise the front line is removed and returned |
| Sam4lChip.Sam4l.constructor | chips/sam4l/src/chip.rs:26-27 | installs an empty queue over a fresh 100-slot array |
| Sam4lChip.Sam4l.Defer | chips/sam4l/src/chip.rs:20-22 | a deferred line joins the back of the queue declared here; the code that defers lines is outside chip.rs |
| Sam4lChip.Sam4l.ServicePendingInterrupts | chips/sam4l/src/chip.rs:69-130 | the loop empties the queue, and its trace is `ServiceTrace` of the queue it started with |
| Sam4lChip.Sam4l.HasPendingInterrupts | chips/sam4l/src/chip.rs:132-134 | true exactly when the queue is non-empty |
| Sam4lChip.ServiceThenCheck | chips/sam4l/src/chip.rs:69-134 | after servicing, `has_pending_interrupts` is false |
| Kernel.Discriminant | capsules/src/pca9544a.rs:147-156 | `rc as isize` is 0 exactly for SUCCESS |
| Kernel.AsUsize | capsules/src/fxos8700_cq.rs:137 | `v as usize` is the 32-bit two's-complement wrap |
| Kernel.SignedWordRoundTrip | capsules/src/fxos8700_cq.rs:137 | a signed value in word range survives `as usize` and the signed read-back |

## Findings

| source | as written | input that shows it | evidently intended | confidence | as-written member | corrected member |
|---|---|---|---|---|---|---|
| capsules/src/mcp23008.rs:238-247 | `get_pin_interrupt_enabled_state` starts its accumulator at 0 and combines each enabled pin's bit with `&=`, so it always returns 0 and GPINTEN is written with every interrupt disabled | settings 0x1 (pin 0 enabled, rising edge): the mask is 0, bit 0 clear | `\|=`: bit i set exactly when pin i's interrupt is enabled | high; not executed | Mcp23008.EnabledMaskAsWritten | Mcp23008.EnabledMaskBits |

The driver model keeps the mask as written, so its contracts describe what the code
does: `disable_interrupt_pin` and the `EnableInterruptSettings` completion write GPINTEN
as 0. The corrected loop (`ComputeEnabledMask`) and its property (`EnabledMaskBits`) stand
beside it as the evidently intended behaviour.

## Left out

- Hardware and foreign calls are not modelled as behaviour. This covers I2C, UART,
  `PA`/`PC` debug pins, the NVIC and peripheral handlers. Each appears only as an event on
  a ghost trace.
- `Callback::schedule` (kernel/src/callback.rs) is not part of this model. An upcall is an
  event, and its boolean result is unused.
- `kernel::common::RingBuffer`, `TakeCell` and `Container` are not modelled from their own code.
  - The ring buffer is modelled as a head and count over its array.
  - `TakeCell` reuses the `InstrumentedTakeCell` model without the pin edges.
  - A grant region is one optional record per process slot. `enter` fails exactly for a
    slot that does not exist, and a failed record allocation is not modelled.
- Sam4lChip.RingBuffer.Enqueue: requires room in the queue. What the ring buffer does when
  full is not modelled.
- The declaration of `hil::gpio::InterruptMode` (hil/gpio.rs) is outside this model. The model
  assumes `mode as u8` is 0, 1, 2 for RisingEdge, FallingEdge, EitherEdge, in declaration
  order. This affects the MCP23008 interrupt nibble (`ModeBits`).
- The declaration of `ReturnCode` is outside this model. The model assumes the discriminants
  follow declaration order (SUCCESS = 0 … ENOMEM = 9).
- Shift semantics follow the release build, where a shift amount is masked and `4 * pin`
  wraps as a u8. A debug build would panic for MCP23008 pins above 7 on the interrupt paths and through
  `disable`, where the shift amount reaches the width of the shifted type.
- `Sam4l::new`'s DMA channel wiring (chips/sam4l/src/chip.rs:29-56) is left out, as are the
  MPU and SysTick accessors. Only the queue installation is modelled.
- Nrf51822Serialization: `initialize` (UART parameters and debug-pin setup) is left out. So
  are the `rx_recv_so_far`/`rx_recv_total` counters beyond their reset; no code reads them.
- Nrf51822Serialization.Nrf51822Serialization.Command requires the transmit slice to fit the
  kernel buffer. The copy has no bounds check and would panic otherwise.
- Nrf51822Serialization.Nrf51822Serialization.ReceiveComplete requires the copied length to
  fit the kernel receive buffer, for the same reason.
- Nrf51822Serialization.Nrf51822Serialization.Allow requires the shared slice not to be a
  kernel buffer. Process memory and kernel statics never alias.
- Fxos8700cq.Fxos8700cq.CommandComplete requires the owner to have a callback when the
  reading arrives. The source panics without one (fxos8700_cq.rs:135).
  - The other panics (82 and 129) are excluded by `Valid()`.
  - The panic at 177 is unreachable once the owner has been cleared.
- Mcp23008.MCP23008.CommandComplete, Pca9544a.PCA9544A.CommandComplete and
  Fxos8700cq.Fxos8700cq.CommandComplete require the returned buffer to be the driver's own
  static buffer whenever a transaction is in flight. The bus hands back what it was given.
- Nrf51822Serialization.Nrf51822Serialization.TransmitComplete and
  Nrf51822Serialization.Nrf51822Serialization.ReceiveComplete make the same assumption:
  the UART returns the driver's own transmit and receive buffers.
- VirtualNineDof.NineDof.EnqueueCommand and VirtualNineDof.NineDof.Command take the
  downstream driver's status as a parameter. The downstream driver is not part of this
  model.
- Mcp23008.MCP23008.EnableInterrupt ignores the identifier argument. This follows the
  MCP23008 implementation, which takes none; `fired` reports the identifier stored by
  `set_client`.
- Allocation failure, reentrancy from downstream drivers, and concurrency are not modelled.
  A call runs to completion before the next.
