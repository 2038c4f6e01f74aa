/** The MCP23008 I2C GPIO extender driver: an asynchronous port of 8 pins.
    Every operation stages its operands in the transfer buffer, writes a
    register address, and is then advanced one bus transaction at a time by
    `CommandComplete` until it returns to `Idle` with the buffer back in its
    cell.

    Shifts follow a release build of the Rust code: an over-wide shift amount
    is reduced modulo the width of the shifted type (a debug build would panic). */
module Mcp23008 {
  import opened Kernel
  import opened TakeCells

  // Register addresses of the MCP23008.
  const IODIR: bv8 := 0x00
  const GPINTEN: bv8 := 0x02
  const INTCON: bv8 := 0x04
  const GPPU: bv8 := 0x06
  const INTF: bv8 := 0x07
  const GPIO: bv8 := 0x09

  /** Phases of the I2C protocol with the chip. */
  datatype State =
    | Idle
    | SelectIoDir | ReadIoDir
    | SelectGpPu | ReadGpPu
    | SelectGpio | ReadGpio
    | SelectGpioToggle | ReadGpioToggle
    | SelectGpioRead | ReadGpioRead
    | EnableInterruptSettings | ReadInterruptSetup | ReadInterruptValues
    | Done  // disable I2C and release the buffer

  datatype Direction = Input | Output

  function DirectionByte(d: Direction): bv8
  {
    if d == Input then 0x01 else 0x00
  }

  datatype PinState = High | Low

  function PinStateByte(p: PinState): bv8
  {
    if p == High then 0x01 else 0x00
  }

  /** What the driver does outside itself, in order. */
  datatype Event =
    | I2cEnable
    | I2cDisable
    | I2cWrite(bytes: seq<bv8>)  // the first `len` bytes of the buffer
    | I2cRead(len: nat)
    | ClientDone(value: nat)
    | ClientFired(identifier: nat)
    | HostPinMakeInput
    | HostPinEnableInterrupt(mode: InterruptMode)

  /*** Read-modify-write of one pin's bit in a register byte ***/

  /** `1 << pin` on a u8. */
  function PinMask(pin: bv8): (m: bv8)
    ensures m != 0 && m & (m - 1) == 0
  {
    1 << (pin % 8)
  }

  /** The byte written back for set/clear/direction/pull-up: the byte read,
      with the pin's bit forced to `on`. */
  function WithBit(b: bv8, pin: bv8, on: bool): (r: bv8)
    ensures r & !PinMask(pin) == b & !PinMask(pin)
    ensures on <==> r & PinMask(pin) != 0
  {
    if on then b | PinMask(pin) else b & !PinMask(pin)
  }

  /** The byte written back for toggle: only the pin's bit flips. */
  function Toggled(b: bv8, pin: bv8): (r: bv8)
    ensures r & !PinMask(pin) == b & !PinMask(pin)
    ensures r & PinMask(pin) != b & PinMask(pin)
  {
    b ^ PinMask(pin)
  }

  lemma ToggleTwiceRestores(b: bv8, pin: bv8)
    ensures Toggled(Toggled(b, pin), pin) == b
  {
  }

  /** The value `read` reports: the pin's bit of the GPIO register. */
  function PinValue(b: bv8, pin: bv8): (v: nat)
    ensures v <= 1
    ensures v == 1 <==> b & PinMask(pin) != 0
  {
    ((b >> (pin % 8)) & 1) as nat
  }

  /*** The interrupt-settings word: one nibble per pin ***/

  /** `4 * pin` computed on a u8 and used as a u32 shift amount. */
  function NibbleShift(pin: bv8): (s: bv32)
    ensures s < 32 && s % 4 == 0
    ensures pin < 8 ==> s == 4 * (pin as bv32)
  {
    ((4 * pin) % 32) as bv32
  }

  function NibbleMask(pin: bv8): bv32
  {
    (0x0F as bv32) << NibbleShift(pin)
  }

  /** `mode as u8` */
  function ModeBits(mode: InterruptMode): bv8
  {
    match mode
    case RisingEdge => 0
    case FallingEdge => 1
    case EitherEdge => 2
  }

  /** `((enabled as u8) | ((mode as u8) << 1)) & 0x0F` */
  function NibbleValue(enabled: bool, mode: InterruptMode): (n: bv32)
    ensures n < 16
    ensures n & 1 == 1 <==> enabled
    ensures (n >> 1) & 3 == ModeBits(mode) as bv32
  {
    (((if enabled then 1 else 0) | (ModeBits(mode) << 1)) & 0x0F) as bv32
  }

  /** save_pin_interrupt_state: only the pin's nibble changes, and it becomes
      the encoding of `enabled` and `mode`. */
  function SaveNibble(settings: bv32, pin: bv8, enabled: bool, mode: InterruptMode): (r: bv32)
    ensures r & !NibbleMask(pin) == settings & !NibbleMask(pin)
    ensures (r >> NibbleShift(pin)) & 0x0F == NibbleValue(enabled, mode)
  {
    (settings & !NibbleMask(pin)) | (NibbleValue(enabled, mode) << NibbleShift(pin))
  }

  /** remove_pin_interrupt_state: the pin's nibble becomes zero, nothing else changes. */
  function ClearNibble(settings: bv32, pin: bv8): (r: bv32)
    ensures r & !NibbleMask(pin) == settings & !NibbleMask(pin)
    ensures r & NibbleMask(pin) == 0
  {
    settings & !NibbleMask(pin)
  }

  /** The pin's nibble of the settings word. */
  function Nibble(settings: bv32, pin: bv8): bv32
  {
    (settings >> NibbleShift(pin)) & 0x0F
  }

  /** check_pin_interrupt_enabled; `pin * 4` wraps as a u8 and the u32 shift
      masks its amount, which together give `NibbleShift`. */
  predicate PinInterruptEnabled(settings: bv32, pin: bv8)
  {
    (settings >> NibbleShift(pin)) & 0x01 == 0x01
  }

  /** get_pin_interrupt_direction: decodes the edge code saved by
      `NibbleValue`; the unused code 3 also reads as either edge. */
  function PinInterruptDirection(settings: bv32, pin: bv8): (m: InterruptMode)
    ensures var code := (settings >> (NibbleShift(pin) + 1)) & 0x03;
      (code < 3 ==> ModeBits(m) as bv32 == code) && (code == 3 ==> m == EitherEdge)
  {
    var d := (settings >> (NibbleShift(pin) + 1)) & 0x03;
    if d == 0 then RisingEdge else if d == 1 then FallingEdge else EitherEdge
  }

  lemma QueriesReadTheNibble(settings: bv32, pin: bv8)
    ensures PinInterruptEnabled(settings, pin) <==> Nibble(settings, pin) & 1 == 1
    ensures (settings >> (NibbleShift(pin) + 1)) & 0x03 == (Nibble(settings, pin) >> 1) & 0x03
  {
  }

  /** Saving a pin's settings makes the queries report exactly what was saved. */
  lemma SaveThenQuery(settings: bv32, pin: bv8, enabled: bool, mode: InterruptMode)
    ensures PinInterruptEnabled(SaveNibble(settings, pin, enabled, mode), pin) == enabled
    ensures PinInterruptDirection(SaveNibble(settings, pin, enabled, mode), pin) == mode
  {
    QueriesReadTheNibble(SaveNibble(settings, pin, enabled, mode), pin);
  }

  /** Removing a pin's settings makes it report disabled, rising edge. */
  lemma RemoveThenQuery(settings: bv32, pin: bv8)
    ensures !PinInterruptEnabled(ClearNibble(settings, pin), pin)
    ensures PinInterruptDirection(ClearNibble(settings, pin), pin) == RisingEdge
  {
    QueriesReadTheNibble(ClearNibble(settings, pin), pin);
  }

  /** Two settings words that agree outside the nibble of pin `p` answer
      every query about any other pin alike. */
  lemma OtherPinsUnaffected(a: bv32, b: bv32, p: bv8, other: bv8)
    requires a & !NibbleMask(p) == b & !NibbleMask(p)
    requires p < 8 && other < 8 && other != p
    ensures PinInterruptEnabled(a, other) == PinInterruptEnabled(b, other)
    ensures PinInterruptDirection(a, other) == PinInterruptDirection(b, other)
  {
    QueriesReadTheNibble(a, other);
    QueriesReadTheNibble(b, other);
    assert Nibble(a, other) == Nibble(b, other);
  }

  /** Pin numbers are not range-checked on the interrupt paths: pin 8 lands on
      pin 0's nibble, because the u32 shift amount 32 wraps to 0. */
  lemma PinEightAliasesPinZero(settings: bv32, mode: InterruptMode)
    ensures SaveNibble(settings, 8, true, mode) == SaveNibble(settings, 0, true, mode)
    ensures PinInterruptEnabled(settings, 8) == PinInterruptEnabled(settings, 0)
  {
    assert NibbleShift(8) == 0 == NibbleShift(0);
  }

  /** get_pin_interrupt_enabled_state, as written: the accumulator starts at
      zero and is combined with `&=`, so the mask is always zero whatever the
      settings say. */
  method EnabledMaskAsWritten(settings: bv32) returns (mask: bv8)
    ensures mask == 0
  {
    mask := 0;
    for i := 0 to 8
      invariant mask == 0
    {
      var p := i as bv8;
      if (settings >> ((p as bv32) * 4)) & 0x01 == 0x01 {
        mask := mask & (1 << p);
      }
    }
  }

  /** Whether bit `pin` of a GPINTEN byte is set. */
  predicate MaskHasPin(mask: bv8, pin: bv8)
    requires pin < 8
  {
    (mask >> pin) & 0x01 == 0x01
  }

  /** Pin `pin`'s bit of the enabled mask: set when its interrupt is enabled. */
  function PinBit(settings: bv32, pin: bv8): bv8
    requires pin < 8
  {
    if PinInterruptEnabled(settings, pin) then 1 << pin else 0
  }

  /** The mask get_pin_interrupt_enabled_state evidently means to build (with
      `|=` for `&=`), over the pins below `n`. */
  function EnabledMaskBelow(settings: bv32, n: bv8): bv8
    requires n <= 8
    decreases n
  {
    if n == 0 then 0 else EnabledMaskBelow(settings, n - 1) | PinBit(settings, n - 1)
  }

  /** Pins on the chip. */
  const PIN_COUNT: bv8 := 8

  function EnabledMask(settings: bv32): bv8
  {
    EnabledMaskBelow(settings, PIN_COUNT)
  }

  /** Or-ing in pin `k`'s bit changes bit `k` alone, and sets it exactly when
      pin `k` is enabled. */
  lemma OrPinBit(settings: bv32, m: bv8, k: bv8, p: bv8)
    requires k < 8 && p < 8
    ensures MaskHasPin(m | PinBit(settings, k), p) <==>
      MaskHasPin(m, p) || (p == k && PinInterruptEnabled(settings, k))
  {
  }

  /** One more pin: bit `pin` of the mask below `n` from that below `n - 1`. */
  lemma BelowStep(settings: bv32, n: bv8, pin: bv8)
    requires 0 < n <= 8 && pin < 8
    requires MaskHasPin(EnabledMaskBelow(settings, n - 1), pin) <==> pin < n - 1 && PinInterruptEnabled(settings, pin)
    ensures MaskHasPin(EnabledMaskBelow(settings, n), pin) <==> pin < n && PinInterruptEnabled(settings, pin)
  {
    OrPinBit(settings, EnabledMaskBelow(settings, n - 1), n - 1, pin);
  }

  lemma {:induction false} EnabledMaskBelowBits(settings: bv32, n: bv8)
    requires n <= 8
    ensures forall pin: bv8 :: pin < 8 ==>
      (MaskHasPin(EnabledMaskBelow(settings, n), pin) <==> pin < n && PinInterruptEnabled(settings, pin))
    decreases n
  {
    if n > 0 {
      EnabledMaskBelowBits(settings, n - 1);
      forall pin: bv8 | pin < 8
        ensures MaskHasPin(EnabledMaskBelow(settings, n), pin) <==> pin < n && PinInterruptEnabled(settings, pin)
      {
        BelowStep(settings, n, pin);
      }
    }
  }

  /** The intended mask has bit `pin` set exactly when pin `pin`'s interrupt
      is enabled. */
  lemma EnabledMaskBits(settings: bv32)
    ensures forall pin: bv8 :: pin < 8 ==> (MaskHasPin(EnabledMask(settings), pin) <==> PinInterruptEnabled(settings, pin))
  {
    EnabledMaskBelowBits(settings, PIN_COUNT);
  }

  /** The discrepancy: with pin 0's interrupt enabled, the mask as written
      (always 0) leaves bit 0 clear, while the intended mask sets it. */
  lemma AsWrittenMaskMissesEnabledPin()
    ensures PinInterruptEnabled(0x1, 0)
    ensures MaskHasPin(EnabledMask(0x1), 0) && !MaskHasPin(0, 0)
  {
    EnabledMaskBits(0x1);
  }

  /** get_pin_interrupt_enabled_state, corrected: the loop over pins 0..7
      accumulates the enabled pins' bits with `|=`. */
  method ComputeEnabledMask(settings: bv32) returns (mask: bv8)
    ensures mask == EnabledMask(settings)
  {
    mask := 0;
    var i: bv8 := 0;
    while i < PIN_COUNT
      invariant i <= PIN_COUNT && mask == EnabledMaskBelow(settings, i)
      decreases 8 - i
    {
      if PinInterruptEnabled(settings, i) {
        mask := mask | (1 << i);
      }
      i := i + 1;
    }
  }

  /*** Interrupt servicing ***/

  /** Pin `i` is reported: its interrupt is enabled, its INTF flag is set, and
      its level matches the configured edge. */
  predicate Fires(settings: bv32, flags: bv8, levels: bv8, i: nat)
    requires i < 8
  {
    var p := i as bv8;
    PinInterruptEnabled(settings, p) && (flags >> p) & 0x01 == 0x01 &&
    match PinInterruptDirection(settings, p)
    case EitherEdge => true
    case RisingEdge => (levels >> p) & 0x01 == 0x01
    case FallingEdge => (levels >> p) & 0x01 == 0x00
  }

  /** Which pins report, pin `i` at index `i`. */
  function FiringPins(settings: bv32, flags: bv8, levels: bv8): (f: seq<bool>)
    ensures |f| == 8
    ensures forall i :: 0 <= i < 8 ==> f[i] == Fires(settings, flags, levels, i)
  {
    seq(8, i requires 0 <= i < 8 => Fires(settings, flags, levels, i))
  }

  /** The first set entry at index `i` or above. */
  function FirstSet(f: seq<bool>, i: nat): (r: Option<nat>)
    requires i <= |f|
    ensures r.Some? ==> i <= r.value < |f|
    decreases |f| - i
  {
    if i == |f| then None
    else if f[i] then Some(i)
    else FirstSet(f, i + 1)
  }

  /** The pin a ReadInterruptValues completion reports, if any. */
  function LowestFiringPin(settings: bv32, flags: bv8, levels: bv8): (r: Option<nat>)
    ensures r.Some? ==> r.value < 8
  {
    FirstSet(FiringPins(settings, flags, levels), 0)
  }

  lemma {:induction false} FirstSetIsLowest(f: seq<bool>, i: nat)
    requires i <= |f|
    ensures var r := FirstSet(f, i);
      (r.Some? ==> i <= r.value < |f| && f[r.value] && forall j :: i <= j < r.value ==> !f[j]) &&
      (r.None? ==> forall j :: i <= j < |f| ==> !f[j])
    decreases |f| - i
  {
    if i < |f| && !f[i] {
      FirstSetIsLowest(f, i + 1);
    }
  }

  /** At most one pin is reported per interrupt: the lowest one that fires. */
  lemma LowestFiringPinIsLowest(settings: bv32, flags: bv8, levels: bv8)
    ensures var r := LowestFiringPin(settings, flags, levels);
      (r.Some? ==> r.value < 8 && Fires(settings, flags, levels, r.value) &&
                   forall j: nat :: j < r.value ==> !Fires(settings, flags, levels, j)) &&
      (r.None? ==> forall j: nat :: j < 8 ==> !Fires(settings, flags, levels, j))
  {
    FirstSetIsLowest(FiringPins(settings, flags, levels), 0);
  }

  /** The scan of command_complete's ReadInterruptValues arm: pins 0..7 in
      order, skipping disabled ones, stopping at the first one to report. */
  method FirstFiringPin(settings: bv32, flags: bv8, levels: bv8) returns (pin: Option<nat>)
    ensures pin == LowestFiringPin(settings, flags, levels)
  {
    pin := None;
    for i := 0 to 8
      invariant FirstSet(FiringPins(settings, flags, levels), i) == LowestFiringPin(settings, flags, levels)
    {
      var p := i as bv8;
      if !PinInterruptEnabled(settings, p) {
        continue;
      }
      if (flags >> p) & 0x01 == 0x01 {
        var status := (levels >> p) & 0x01;
        var fire := match PinInterruptDirection(settings, p)
          case EitherEdge => true
          case RisingEdge => status == 0x01
          case FallingEdge => status == 0x00;
        if fire {
          pin := Some(i);
          return;
        }
      }
    }
  }

  /** The identifier handed to `fired`: the port number in the low byte, the
      pin in the next one. */
  function FiredIdentifier(identifier: nat, pin: nat): (id: nat)
    requires pin < 8
    ensures id % 256 == identifier % 256 && id / 256 == pin
  {
    identifier % 256 + pin * 256
  }

  /*** The protocol, as pure functions of the phase and the buffer ***/

  /** The phase after one completed transaction. */
  function Successor(s: State): State
  {
    match s
    case Idle => Idle
    case SelectIoDir => ReadIoDir
    case SelectGpPu => ReadGpPu
    case SelectGpio => ReadGpio
    case SelectGpioToggle => ReadGpioToggle
    case SelectGpioRead => ReadGpioRead
    case ReadInterruptSetup => ReadInterruptValues
    case ReadIoDir | ReadGpPu | ReadGpio | ReadGpioToggle | EnableInterruptSettings => Done
    case ReadGpioRead | ReadInterruptValues | Done => Idle
  }

  /** Completions still needed before the driver is idle again. */
  function Remaining(s: State): nat
  {
    match s
    case Idle => 0
    case ReadGpioRead | ReadInterruptValues | Done => 1
    case ReadIoDir | ReadGpPu | ReadGpio | ReadGpioToggle | EnableInterruptSettings
      | SelectGpioRead | ReadInterruptSetup => 2
    case SelectIoDir | SelectGpPu | SelectGpio | SelectGpioToggle => 3
  }

  /** Every operation reaches Idle after at most three completions: each
      completion brings it one step closer. */
  lemma SuccessorProgresses(s: State)
    ensures Remaining(s) <= 3
    ensures s != Idle ==> Remaining(Successor(s)) == Remaining(s) - 1
    ensures Successor(s) == Idle <==> Remaining(s) <= 1
  {
  }

  /** The buffer after the handler for phase `s` ran on the bytes `buf`. */
  function CompletionBuffer(s: State, buf: seq<bv8>): (r: seq<bv8>)
    requires |buf| >= 3
    ensures |r| == |buf|
  {
    match s
    case ReadIoDir => buf[0 := IODIR][1 := WithBit(buf[0], buf[1], buf[2] == DirectionByte(Input))]
    case ReadGpPu => buf[0 := GPPU][1 := WithBit(buf[0], buf[1], buf[2] == 1)]
    case ReadGpio => buf[0 := GPIO][1 := WithBit(buf[0], buf[1], buf[2] == PinStateByte(High))]
    case ReadGpioToggle => buf[0 := GPIO][1 := Toggled(buf[0], buf[1])]
    case EnableInterruptSettings => buf[0 := GPINTEN][1 := 0]  // the mask as written
    case _ => buf
  }

  /** The client call made when an operation finishes, if there is a client. */
  function ClientEvents(hasClient: bool, e: Event): seq<Event>
  {
    if hasClient then [e] else []
  }

  /** The events of the handler for phase `s` on the bytes `buf`. */
  function CompletionEvents(s: State, buf: seq<bv8>, settings: bv32, identifier: nat, hasClient: bool): seq<Event>
    requires |buf| >= 3
  {
    match s
    case Idle => []
    case SelectIoDir | SelectGpPu | SelectGpio | SelectGpioToggle | SelectGpioRead => [I2cRead(1)]
    case ReadInterruptSetup => [I2cRead(3)]
    case ReadIoDir | ReadGpPu | ReadGpio | ReadGpioToggle | EnableInterruptSettings =>
      [I2cWrite(CompletionBuffer(s, buf)[..2])]
    case ReadGpioRead => ClientEvents(hasClient, ClientDone(PinValue(buf[0], buf[1]))) + [I2cDisable]
    case ReadInterruptValues =>
      var p := LowestFiringPin(settings, buf[0], buf[2]);
      (if p.Some? then ClientEvents(hasClient, ClientFired(FiredIdentifier(identifier, p.value))) else [])
      + [I2cDisable]
    case Done => ClientEvents(hasClient, ClientDone(0)) + [I2cDisable]
  }

  predicate IsClientCall(e: Event)
  {
    e.ClientDone? || e.ClientFired?
  }

  function ClientCalls(events: seq<Event>): nat
  {
    if events == [] then 0
    else (if IsClientCall(events[0]) then 1 else 0) + ClientCalls(events[1..])
  }

  lemma {:induction false} ClientCallsAppend(a: seq<Event>, b: seq<Event>)
    ensures ClientCalls(a + b) == ClientCalls(a) + ClientCalls(b)
    decreases |a|
  {
    if a == [] {
      assert a + b == b;
    } else {
      assert (a + b)[1..] == a[1..] + b;
      ClientCallsAppend(a[1..], b);
    }
  }

  /** An operation's client hears about it once at most: only the final
      completion calls `done` or `fired`, and exactly when a client is set
      (for an interrupt, only when some pin fires). */
  lemma {:induction false} OneClientCallAtTheEnd(s: State, buf: seq<bv8>, settings: bv32, identifier: nat, hasClient: bool)
    requires |buf| >= 3
    ensures ClientCalls(CompletionEvents(s, buf, settings, identifier, hasClient)) <= 1
    ensures Successor(s) != Idle ==> ClientCalls(CompletionEvents(s, buf, settings, identifier, hasClient)) == 0
    ensures s in {ReadGpioRead, Done} ==>
      ClientCalls(CompletionEvents(s, buf, settings, identifier, hasClient)) == if hasClient then 1 else 0
  {
    var ev := CompletionEvents(s, buf, settings, identifier, hasClient);
    match s
    case ReadGpioRead =>
      ClientCallsAppend(ClientEvents(hasClient, ClientDone(PinValue(buf[0], buf[1]))), [I2cDisable]);
    case Done =>
      ClientCallsAppend(ClientEvents(hasClient, ClientDone(0)), [I2cDisable]);
    case ReadInterruptValues =>
      var p := LowestFiringPin(settings, buf[0], buf[2]);
      var calls := if p.Some? then ClientEvents(hasClient, ClientFired(FiredIdentifier(identifier, p.value))) else [];
      ClientCallsAppend(calls, [I2cDisable]);
    case _ =>
  }

  /** A read-modify-write writes back the byte read with only the pin's bit
      changed; a toggle changes that bit, the others force it to the operand. */
  lemma WriteBackChangesOnlyThePin(s: State, buf: seq<bv8>)
    requires |buf| >= 3
    requires s in {ReadIoDir, ReadGpPu, ReadGpio, ReadGpioToggle}
    ensures var w := CompletionBuffer(s, buf)[1];
      w & !PinMask(buf[1]) == buf[0] & !PinMask(buf[1]) &&
      (s == ReadGpioToggle ==> w & PinMask(buf[1]) != buf[0] & PinMask(buf[1])) &&
      (s != ReadGpioToggle ==> (w & PinMask(buf[1]) != 0 <==> buf[2] == 1))
  {
  }

  /** The buffer as staged by a start helper. */
  function Staged(buf: seq<bv8>, b0: bv8, b1: Option<bv8>, b2: Option<bv8>): (r: seq<bv8>)
    requires |buf| >= 3
    ensures |r| == |buf|
  {
    var s := buf[0 := b0];
    var s := if b1.Some? then s[1 := b1.value] else s;
    if b2.Some? then s[2 := b2.value] else s
  }

  /** The driver object. */
  class MCP23008 {
    var state: State
    const buffer: InstrumentedTakeCell<array<bv8>>
    /** Whether a host pin is wired to the chip's interrupt output. */
    const interruptPin: bool
    var interruptSettings: bv32
    var identifier: nat
    const client: InstrumentedTakeCell<ClientRef>
    /** The statically allocated transfer buffer this driver owns. */
    ghost const Buf: array<bv8>
    ghost const Repr: set<object>
    ghost var trace: seq<Event>

    /** The buffer is in its cell exactly when no transaction is in flight. */
    ghost predicate Valid()
      reads this, buffer
    {
      Repr == {this, buffer, client, Buf} &&
      buffer as object != client as object &&
      Buf.Length >= 3 &&
      (buffer.val != None <==> state == Idle) &&
      (buffer.val != None ==> buffer.val.value == Buf)
    }

    constructor (interruptPin: bool, buf: array<bv8>)
      requires buf.Length >= 3
      ensures Valid() && fresh(buffer) && fresh(client)
      ensures state == Idle && interruptSettings == 0 && identifier == 0
      ensures buffer.val == Some(buf) && client.val == None && Buf == buf && trace == []
      ensures this.interruptPin == interruptPin
    {
      state := Idle;
      buffer := new InstrumentedTakeCell.New(buf);
      this.interruptPin := interruptPin;
      interruptSettings := 0;
      identifier := 0;
      client := new InstrumentedTakeCell.Empty();
      Buf := buf;
      Repr := {this, buffer, client, buf};
      trace := [];
    }

    /** Nothing observable changed. */
    twostate predicate Unchanged()
      reads this, buffer, client, Buf
    {
      state == old(state) && trace == old(trace) && buffer.val == old(buffer.val) &&
      Buf[..] == old(Buf[..]) && interruptSettings == old(interruptSettings) &&
      identifier == old(identifier) && client.val == old(client.val)
    }

    /** A transaction was started from Idle: the buffer left its cell, the
        operands were staged, the bus was powered and the address byte written. */
    twostate predicate Started(b0: bv8, b1: Option<bv8>, b2: Option<bv8>, next: State, writeLen: nat)
      reads this, buffer, client, Buf
      requires Buf.Length >= 3 && 1 <= writeLen <= 3
    {
      state == next && buffer.val == None &&
      Buf[..] == Staged(old(Buf[..]), b0, b1, b2) &&
      trace == old(trace) + [I2cEnable, I2cWrite(Buf[..writeLen])] &&
      identifier == old(identifier) && client.val == old(client.val)
    }

    method SetClient(c: ClientRef, id: nat)
      requires Valid()
      modifies Repr
      ensures Valid()
      ensures client.val == Some(c) && identifier == id
      ensures state == old(state) && trace == old(trace) && buffer.val == old(buffer.val)
      ensures Buf[..] == old(Buf[..]) && interruptSettings == old(interruptSettings)
    {
      var _ := client.Replace(c);
      identifier := id;
    }

    /** The common body of the start helpers. */
    method Start(b0: bv8, b1: Option<bv8>, b2: Option<bv8>, next: State)
      requires Valid() && next != Idle
      modifies Repr
      ensures Valid() && interruptSettings == old(interruptSettings)
      ensures old(buffer.val) == None ==> Unchanged()
      ensures old(buffer.val) != None ==> Started(b0, b1, b2, next, 1)
    {
      var taken := buffer.Take();
      if taken.Some? {
        var b := taken.value;
        trace := trace + [I2cEnable];
        b[0] := b0;
        if b1.Some? { b[1] := b1.value; }
        if b2.Some? { b[2] := b2.value; }
        trace := trace + [I2cWrite(b[..1])];
        state := next;
      }
    }

    method SetDirection(pin: bv8, d: Direction)
      requires Valid()
      modifies Repr
      ensures Valid() && interruptSettings == old(interruptSettings)
      ensures old(buffer.val) == None ==> Unchanged()
      ensures old(buffer.val) != None ==> Started(IODIR, Some(pin), Some(DirectionByte(d)), SelectIoDir, 1)
    {
      Start(IODIR, Some(pin), Some(DirectionByte(d)), SelectIoDir);
    }

    method ConfigurePullup(pin: bv8, enabled: bool)
      requires Valid()
      modifies Repr
      ensures Valid() && interruptSettings == old(interruptSettings)
      ensures old(buffer.val) == None ==> Unchanged()
      ensures old(buffer.val) != None ==>
        Started(GPPU, Some(pin), Some(if enabled then 1 else 0), SelectGpPu, 1)
    {
      Start(GPPU, Some(pin), Some(if enabled then 1 else 0), SelectGpPu);
    }

    method SetPin(pin: bv8, value: PinState)
      requires Valid()
      modifies Repr
      ensures Valid() && interruptSettings == old(interruptSettings)
      ensures old(buffer.val) == None ==> Unchanged()
      ensures old(buffer.val) != None ==> Started(GPIO, Some(pin), Some(PinStateByte(value)), SelectGpio, 1)
    {
      Start(GPIO, Some(pin), Some(PinStateByte(value)), SelectGpio);
    }

    method TogglePin(pin: bv8)
      requires Valid()
      modifies Repr
      ensures Valid() && interruptSettings == old(interruptSettings)
      ensures old(buffer.val) == None ==> Unchanged()
      ensures old(buffer.val) != None ==> Started(GPIO, Some(pin), None, SelectGpioToggle, 1)
    {
      Start(GPIO, Some(pin), None, SelectGpioToggle);
    }

    method ReadPin(pin: bv8)
      requires Valid()
      modifies Repr
      ensures Valid() && interruptSettings == old(interruptSettings)
      ensures old(buffer.val) == None ==> Unchanged()
      ensures old(buffer.val) != None ==> Started(GPIO, Some(pin), None, SelectGpioRead, 1)
    {
      Start(GPIO, Some(pin), None, SelectGpioRead);
    }

    /** Records the pin's interrupt mode and writes the chip-wide interrupt
        configuration (INTCON = 0, IOCON = active-high). The settings are only
        recorded when the buffer was available. */
    method EnableInterruptPin(pin: bv8, mode: InterruptMode)
      requires Valid()
      modifies Repr
      ensures Valid()
      ensures old(buffer.val) == None ==> Unchanged()
      ensures old(buffer.val) != None ==>
        Started(INTCON, Some(0), Some(0x02), EnableInterruptSettings, 3) &&
        interruptSettings == SaveNibble(old(interruptSettings), pin, true, mode)
    {
      var taken := buffer.Take();
      if taken.Some? {
        var b := taken.value;
        trace := trace + [I2cEnable];
        interruptSettings := SaveNibble(interruptSettings, pin, true, mode);
        b[0] := INTCON;
        b[1] := 0;
        b[2] := 0x02;
        trace := trace + [I2cWrite(b[..3])];
        state := EnableInterruptSettings;
      }
    }

    /** Forgets the pin's interrupt mode and writes GPINTEN from the enabled
        mask as written, which is always zero. */
    method DisableInterruptPin(pin: bv8)
      requires Valid()
      modifies Repr
      ensures Valid()
      ensures old(buffer.val) == None ==> Unchanged()
      ensures old(buffer.val) != None ==>
        Started(GPINTEN, Some(0), None, Done, 2) &&
        interruptSettings == ClearNibble(old(interruptSettings), pin)
    {
      var taken := buffer.Take();
      if taken.Some? {
        var b := taken.value;
        var settings := ClearNibble(interruptSettings, pin);
        var mask := EnabledMaskAsWritten(settings);
        trace := trace + [I2cEnable];
        interruptSettings := settings;
        b[0] := GPINTEN;
        b[1] := mask;
        trace := trace + [I2cWrite(b[..2])];
        state := Done;
      }
    }

    /** Arms the host pin wired to the chip's interrupt output; -1 when none is wired. */
    method EnableHostInterrupt() returns (r: int)
      requires Valid()
      modifies Repr
      ensures Valid()
      ensures r == (if interruptPin then 0 else -1)
      ensures state == old(state) && buffer.val == old(buffer.val) && Buf[..] == old(Buf[..])
      ensures interruptSettings == old(interruptSettings) && identifier == old(identifier) && client.val == old(client.val)
      ensures trace == old(trace) + (if interruptPin then [HostPinMakeInput, HostPinEnableInterrupt(RisingEdge)] else [])
    {
      if interruptPin {
        trace := trace + [HostPinMakeInput, HostPinEnableInterrupt(RisingEdge)];
        r := 0;
      } else {
        r := -1;
      }
    }

    /*** GPIOAsyncPort ***/

    /** The best the chip can do is make the pin an input; the pin is not range-checked. */
    method Disable(pin: nat) returns (r: int)
      requires Valid()
      modifies Repr
      ensures Valid() && interruptSettings == old(interruptSettings)
      ensures r == 0
      ensures old(buffer.val) == None ==> Unchanged()
      ensures old(buffer.val) != None ==>
        Started(IODIR, Some(AsU8(pin)), Some(DirectionByte(Input)), SelectIoDir, 1)
    {
      SetDirection(AsU8(pin), Input);
      r := 0;
    }

    method EnableOutput(pin: nat) returns (r: int)
      requires Valid()
      modifies Repr
      ensures Valid() && interruptSettings == old(interruptSettings)
      ensures r == (if pin > 7 then -1 else 0)
      ensures pin > 7 || old(buffer.val) == None ==> Unchanged()
      ensures pin <= 7 && old(buffer.val) != None ==>
        Started(IODIR, Some(pin as bv8), Some(DirectionByte(Output)), SelectIoDir, 1)
    {
      if pin > 7 {
        r := -1;
      } else {
        SetDirection(pin as bv8, Output);
        r := 0;
      }
    }

    /** Makes the pin an input. The pull-up step that follows never starts:
        the direction change has already taken the buffer. */
    method EnableInput(pin: nat, mode: InputMode) returns (r: int)
      requires Valid()
      modifies Repr
      ensures Valid() && interruptSettings == old(interruptSettings)
      ensures r == (if pin > 7 then -1 else 0)
      ensures pin > 7 || old(buffer.val) == None ==> Unchanged()
      ensures pin <= 7 && old(buffer.val) != None ==>
        Started(IODIR, Some(pin as bv8), Some(DirectionByte(Input)), SelectIoDir, 1)
    {
      if pin > 7 {
        r := -1;
      } else {
        SetDirection(pin as bv8, Input);
        match mode {
          case PullUp => ConfigurePullup(pin as bv8, true);
          case PullDown =>  // not supported by the chip
          case PullNone => ConfigurePullup(pin as bv8, false);
        }
        r := 0;
      }
    }

    method Read(pin: nat) returns (r: int)
      requires Valid()
      modifies Repr
      ensures Valid() && interruptSettings == old(interruptSettings)
      ensures r == (if pin > 7 then -1 else 0)
      ensures pin > 7 || old(buffer.val) == None ==> Unchanged()
      ensures pin <= 7 && old(buffer.val) != None ==> Started(GPIO, Some(pin as bv8), None, SelectGpioRead, 1)
    {
      if pin > 7 {
        r := -1;
      } else {
        ReadPin(pin as bv8);
        r := 0;
      }
    }

    method Toggle(pin: nat) returns (r: int)
      requires Valid()
      modifies Repr
      ensures Valid() && interruptSettings == old(interruptSettings)
      ensures r == (if pin > 7 then -1 else 0)
      ensures pin > 7 || old(buffer.val) == None ==> Unchanged()
      ensures pin <= 7 && old(buffer.val) != None ==> Started(GPIO, Some(pin as bv8), None, SelectGpioToggle, 1)
    {
      if pin > 7 {
        r := -1;
      } else {
        TogglePin(pin as bv8);
        r := 0;
      }
    }

    method Set(pin: nat) returns (r: int)
      requires Valid()
      modifies Repr
      ensures Valid() && interruptSettings == old(interruptSettings)
      ensures r == (if pin > 7 then -1 else 0)
      ensures pin > 7 || old(buffer.val) == None ==> Unchanged()
      ensures pin <= 7 && old(buffer.val) != None ==>
        Started(GPIO, Some(pin as bv8), Some(PinStateByte(High)), SelectGpio, 1)
    {
      if pin > 7 {
        r := -1;
      } else {
        SetPin(pin as bv8, High);
        r := 0;
      }
    }

    method Clear(pin: nat) returns (r: int)
      requires Valid()
      modifies Repr
      ensures Valid() && interruptSettings == old(interruptSettings)
      ensures r == (if pin > 7 then -1 else 0)
      ensures pin > 7 || old(buffer.val) == None ==> Unchanged()
      ensures pin <= 7 && old(buffer.val) != None ==>
        Started(GPIO, Some(pin as bv8), Some(PinStateByte(Low)), SelectGpio, 1)
    {
      if pin > 7 {
        r := -1;
      } else {
        SetPin(pin as bv8, Low);
        r := 0;
      }
    }

    /** The identifier argument of the port interface is ignored: `fired`
        reports the identifier given to `SetClient`. The pin is not range-checked. */
    method EnableInterrupt(pin: nat, mode: InterruptMode, ignoredIdentifier: nat) returns (r: int)
      requires Valid()
      modifies Repr
      ensures Valid()
      ensures r == (if interruptPin then 0 else -1)
      ensures !interruptPin ==> Unchanged()
      ensures interruptPin && old(buffer.val) == None ==>
        state == old(state) && buffer.val == None && Buf[..] == old(Buf[..]) &&
        interruptSettings == old(interruptSettings) &&
        trace == old(trace) + [HostPinMakeInput, HostPinEnableInterrupt(RisingEdge)]
      ensures interruptPin && old(buffer.val) != None ==>
        state == EnableInterruptSettings && buffer.val == None &&
        Buf[..] == Staged(old(Buf[..]), INTCON, Some(0), Some(0x02)) &&
        interruptSettings == SaveNibble(old(interruptSettings), AsU8(pin), true, mode) &&
        trace == old(trace) + [HostPinMakeInput, HostPinEnableInterrupt(RisingEdge), I2cEnable, I2cWrite([INTCON, 0, 0x02])]
      ensures identifier == old(identifier) && client.val == old(client.val)
    {
      var main := EnableHostInterrupt();
      if main < 0 {
        return -1;
      }
      EnableInterruptPin(AsU8(pin), mode);
      assert old(buffer.val) != None ==> Buf[..3] == [INTCON, 0, 0x02];
      r := 0;
    }

    /** The pin is not range-checked. */
    method DisableInterrupt(pin: nat) returns (r: int)
      requires Valid()
      modifies Repr
      ensures Valid()
      ensures r == 0
      ensures old(buffer.val) == None ==> Unchanged()
      ensures old(buffer.val) != None ==>
        Started(GPINTEN, Some(0), None, Done, 2) &&
        interruptSettings == ClearNibble(old(interruptSettings), AsU8(pin))
    {
      DisableInterruptPin(AsU8(pin));
      r := 0;
    }

    /** The host pin saw the chip's interrupt line: read INTF (and, with it, GPIO). */
    method Fired()
      requires Valid()
      modifies Repr
      ensures Valid() && interruptSettings == old(interruptSettings)
      ensures old(buffer.val) == None ==> Unchanged()
      ensures old(buffer.val) != None ==> Started(INTF, None, None, ReadInterruptSetup, 1)
    {
      Start(INTF, None, None, ReadInterruptSetup);
    }

    /** Completion of a `Select*` phase or of `ReadInterruptSetup`: the
        register address is latched, read the register(s). */
    method RequestRead()
      requires Valid() && buffer.val == None
      requires state in {SelectIoDir, SelectGpPu, SelectGpio, SelectGpioToggle, SelectGpioRead, ReadInterruptSetup}
      modifies this`trace, this`state
      ensures Valid() && state == Successor(old(state))
      ensures trace == old(trace) + CompletionEvents(old(state), Buf[..], interruptSettings, identifier, client.val != None)
    {
      trace := trace + [I2cRead(if state == ReadInterruptSetup then 3 else 1)];
      state := Successor(state);
    }

    /** The register address and byte a read-modify-write completion writes
        back, computed from the byte read and the staged pin and operand. */
    method NewRegister(b: array<bv8>) returns (register: bv8, value: bv8)
      requires Valid() && b == Buf
      requires state in {ReadIoDir, ReadGpPu, ReadGpio, ReadGpioToggle, EnableInterruptSettings}
      ensures CompletionBuffer(state, Buf[..]) == Buf[..][0 := register][1 := value]
    {
      var pin := b[1];
      var operand := b[2];
      match state {
        case ReadIoDir =>
          register, value := IODIR, WithBit(b[0], pin, operand == DirectionByte(Input));
        case ReadGpPu =>
          register, value := GPPU, WithBit(b[0], pin, operand == 1);
        case ReadGpio =>
          register, value := GPIO, WithBit(b[0], pin, operand == PinStateByte(High));
        case ReadGpioToggle =>
          register, value := GPIO, Toggled(b[0], pin);
        case EnableInterruptSettings =>
          // the whole register is rewritten from the saved settings
          register := GPINTEN;
          value := EnabledMaskAsWritten(interruptSettings);
      }
    }

    /** Completion of a register read that is followed by a write: write the
        new register byte back. */
    method WriteBack(b: array<bv8>)
      requires Valid() && buffer.val == None && b == Buf
      requires state in {ReadIoDir, ReadGpPu, ReadGpio, ReadGpioToggle, EnableInterruptSettings}
      modifies Buf, this`trace, this`state
      ensures Valid() && state == Successor(old(state))
      ensures Buf[..] == CompletionBuffer(old(state), old(Buf[..]))
      ensures trace == old(trace) +
        CompletionEvents(old(state), old(Buf[..]), interruptSettings, identifier, client.val != None)
    {
      ghost var before := b[..];
      ghost var events := CompletionEvents(state, before, interruptSettings, identifier, client.val != None);
      var register, value := NewRegister(b);
      b[1] := value;
      b[0] := register;
      assert b[..] == before[0 := register][1 := value];
      assert events == [I2cWrite(b[..2])];
      trace := trace + [I2cWrite(b[..2])];
      state := Done;
    }

    /** The events the final completion in phase `state` produces: the
        client's `done` or `fired` call, when there is a client to call, then
        the bus powered down. */
    method FinalEvents(b: array<bv8>, hasClient: bool) returns (ev: seq<Event>)
      requires Valid() && b == Buf
      requires state in {ReadGpioRead, ReadInterruptValues, Done}
      ensures ev == CompletionEvents(state, Buf[..], interruptSettings, identifier, hasClient)
    {
      ev := [];
      match state {
        case ReadGpioRead =>
          var pinValue := PinValue(b[0], b[1]);
          if hasClient {
            ev := [ClientDone(pinValue)];
          }
        case ReadInterruptValues =>
          var p := FirstFiringPin(interruptSettings, b[0], b[2]);
          if p.Some? && hasClient {
            ev := [ClientFired(FiredIdentifier(identifier, p.value))];
          }
        case Done =>
          if hasClient {
            ev := [ClientDone(0)];
          }
      }
      ev := ev + [I2cDisable];
    }

    /** Completion of the last transaction of an operation: tell the client,
        put the buffer back and power the bus down. */
    method Finish(b: array<bv8>)
      requires Valid() && buffer.val == None && b == Buf
      requires state in {ReadGpioRead, ReadInterruptValues, Done}
      modifies this`trace, this`state, buffer, client
      ensures Valid() && state == Successor(old(state)) && buffer.val == Some(Buf)
      ensures client.val == old(client.val)
      ensures trace == old(trace) +
        CompletionEvents(old(state), Buf[..], interruptSettings, identifier, client.val != None)
    {
      var hasClient := client.Map((c: ClientRef) => (c, c));
      var ev := FinalEvents(b, hasClient.Some?);
      var _ := buffer.Replace(b);
      trace := trace + ev;
      state := Idle;
    }

    /** The bus finished a transaction and hands the buffer back. A
        completion arriving while idle changes nothing. */
    method CommandComplete(b: array<bv8>)
      requires Valid() && (state != Idle ==> b == Buf)
      modifies Repr
      ensures Valid()
      ensures old(state) == Idle ==> Unchanged()
      ensures state == Successor(old(state))
      ensures Buf[..] == CompletionBuffer(old(state), old(Buf[..]))
      ensures trace == old(trace) +
        CompletionEvents(old(state), old(Buf[..]), interruptSettings, identifier, client.val != None)
      ensures interruptSettings == old(interruptSettings) && identifier == old(identifier)
      ensures client.val == old(client.val)
    {
      if state == Idle {
        return;
      } else if state in {SelectIoDir, SelectGpPu, SelectGpio, SelectGpioToggle, SelectGpioRead, ReadInterruptSetup} {
        RequestRead();
      } else if state in {ReadIoDir, ReadGpPu, ReadGpio, ReadGpioToggle, EnableInterruptSettings} {
        WriteBack(b);
      } else {
        Finish(b);
      }
    }
  }
}
