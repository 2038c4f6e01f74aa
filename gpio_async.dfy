/** The asynchronous-GPIO system-call driver: it exposes a list of GPIO ports
    (for example MCP23008 extenders) to processes. A command packs the port,
    the pin and a configuration value into one data word; the driver decodes
    it, range-checks the port and hands the request to that port, whose status
    becomes the command's result. Ports report back through `fired` and
    `done`, which become upcalls. */
module GpioAsync {
  import opened Kernel
  import Mcp23008

  /** The fields packed into a command's data word. */
  datatype Fields = Fields(port: nat, pin: nat, other: nat)

  /** port = `data & 0xFF`, pin = `(data >> 8) & 0xFF`,
      other = `(data >> 16) & 0xFFFF`, written as arithmetic on the
      unsigned word. */
  function Decode(data: nat): (f: Fields)
    ensures f.port < 256 && f.pin < 256 && f.other < 65536
  {
    Fields(data % 256, (data / 256) % 256, (data / 65536) % 65536)
  }

  /** How a process packs the data word. */
  function Encode(f: Fields): nat
  {
    f.port + f.pin * 256 + f.other * 65536
  }

  /** Fields in range survive packing and decoding. */
  lemma DecodeEncode(f: Fields)
    requires f.port < 256 && f.pin < 256 && f.other < 65536
    ensures Decode(Encode(f)) == f
  {
    var d := Encode(f);
    assert d / 256 == f.pin + f.other * 256;
    assert d / 65536 == f.other;
  }

  /** A 32-bit data word is exactly its three fields: nothing is lost. */
  lemma EncodeDecode(data: nat)
    requires data < WORD
    ensures Encode(Decode(data)) == data
  {
    var f := Decode(data);
    assert data / 65536 < 65536;
    assert data == data % 256 + (data / 256) * 256;
    assert data / 256 == (data / 256) % 256 + (data / 65536) * 256;
  }

  /** A request to one port, as the GPIOAsyncPort interface names it. */
  datatype PortOp =
    | EnableOutput(pin: nat)
    | Set(pin: nat)
    | Clear(pin: nat)
    | Toggle(pin: nat)
    | EnableInput(pin: nat, mode: InputMode)
    | Read(pin: nat)
    | EnableInterrupt(pin: nat, edge: InterruptMode, identifier: nat)
    | DisableInterrupt(pin: nat)
    | Disable(pin: nat)

  /** A command either answers at once or passes a request to a port and
      answers with the port's status. */
  datatype Dispatch = Immediate(r: int) | Call(port: nat, op: PortOp)

  /** configure_input_pin: 0, 1, 2 are pull-up, pull-down, none. */
  function ConfigureInputPin(port: nat, pin: nat, config: nat): (d: Dispatch)
    ensures d.Call? <==> config <= 2
    ensures d.Immediate? ==> d.r == -1
    ensures d.Call? ==> d.port == port && d.op == EnableInput(pin, [PullUp, PullDown, PullNone][config])
  {
    if config > 2 then Immediate(-1)
    else Call(port, EnableInput(pin, if config == 0 then PullUp else if config == 1 then PullDown else PullNone))
  }

  /** configure_interrupt: 0, 1, 2 are rising, falling, either edge; the
      port index is the identifier handed to the port. */
  function ConfigureInterrupt(port: nat, pin: nat, config: nat): (d: Dispatch)
    ensures d.Call? <==> config <= 2
    ensures d.Immediate? ==> d.r == -1
    ensures d.Call? ==>
      d.port == port && d.op == EnableInterrupt(pin, [RisingEdge, FallingEdge, EitherEdge][config], port)
  {
    if config > 2 then Immediate(-1)
    else Call(port, EnableInterrupt(pin,
      if config == 0 then RisingEdge else if config == 1 then FallingEdge else EitherEdge, port))
  }

  /** The command dispatch. Commands 1-9 on an existing port call that port,
      with the decoded pin, for the operation the command number names (5 and
      7 only for a configuration of at most 2); command 0 reports the number
      of ports and every other command answers -1 without calling a port. */
  function Command(commandNum: nat, data: nat, numPorts: nat): (d: Dispatch)
    ensures d.Call? ==> d.port == Decode(data).port < numPorts && d.op.pin == Decode(data).pin &&
                        CommandNumber(d.op) == commandNum
    ensures commandNum == 0 ==> d == Immediate(numPorts)
    ensures commandNum > 9 ==> d == Immediate(-1)
    ensures commandNum != 0 && Decode(data).port >= numPorts ==> d == Immediate(-1)
    ensures d.Immediate? && commandNum != 0 ==> d.r == -1
    ensures commandNum in {1, 2, 3, 4, 6, 8, 9} && Decode(data).port < numPorts ==> d.Call?
    ensures commandNum in {5, 7} && Decode(data).port < numPorts ==>
      (d.Call? <==> Decode(data).other % 256 <= 2)
  {
    var f := Decode(data);
    if commandNum != 0 && f.port >= numPorts then Immediate(-1)
    else match commandNum
      case 0 => Immediate(numPorts)
      case 1 => Call(f.port, EnableOutput(f.pin))
      case 2 => Call(f.port, Set(f.pin))
      case 3 => Call(f.port, Clear(f.pin))
      case 4 => Call(f.port, Toggle(f.pin))
      case 5 => ConfigureInputPin(f.port, f.pin, f.other % 256)
      case 6 => Call(f.port, Read(f.pin))
      case 7 => ConfigureInterrupt(f.port, f.pin, f.other % 256)
      case 8 => Call(f.port, DisableInterrupt(f.pin))
      case 9 => Call(f.port, Disable(f.pin))
      case _ => Immediate(-1)
  }

  /** The command number a port request comes from. */
  function CommandNumber(op: PortOp): nat
  {
    match op
    case EnableOutput(_) => 1
    case Set(_) => 2
    case Clear(_) => 3
    case Toggle(_) => 4
    case EnableInput(_, _) => 5
    case Read(_) => 6
    case EnableInterrupt(_, _, _) => 7
    case DisableInterrupt(_) => 8
    case Disable(_) => 9
  }

  /** The configuration byte selects the mode; anything above 2 is refused. */
  lemma ConfigurationIsChecked(commandNum: nat, data: nat, numPorts: nat)
    requires commandNum in {5, 7} && Decode(data).port < numPorts
    ensures var d := Command(commandNum, data, numPorts);
      var config := Decode(data).other % 256;
      (d.Call? <==> config <= 2) &&
      (d.Call? && commandNum == 5 ==>
         d.op.mode == [PullUp, PullDown, PullNone][config]) &&
      (d.Call? && commandNum == 7 ==>
         d.op.edge == [RisingEdge, FallingEdge, EitherEdge][config] && d.op.identifier == d.port)
  {
  }

  /** The identifier an MCP23008 reports to `fired` decodes to the port index
      it was given (when that fits in a byte) and the pin that fired. */
  lemma Mcp23008IdentifierDecodes(identifier: nat, pin: nat)
    requires identifier < 256 && pin < 8
    ensures Decode(Mcp23008.FiredIdentifier(identifier, pin)) == Fields(identifier, pin, 0)
  {
    var id := Mcp23008.FiredIdentifier(identifier, pin);
    assert id == identifier + pin * 256;
    assert id / 256 == pin;
    assert id / 65536 == 0;
  }

  class GPIOAsync {
    const numPorts: nat
    var callback: Option<Callback>
    /** Upcalls scheduled, in order. */
    ghost var upcalls: seq<Upcall>

    constructor (numPorts: nat)
      ensures this.numPorts == numPorts && callback == None && upcalls == []
    {
      this.numPorts := numPorts;
      callback := None;
      upcalls := [];
    }

    method Subscribe(subscribeNum: nat, cb: Callback) returns (r: int)
      modifies this`callback
      ensures subscribeNum == 0 ==> r == 0 && callback == Some(cb)
      ensures subscribeNum != 0 ==> r == -1 && callback == old(callback)
    {
      if subscribeNum == 0 {
        callback := Some(cb);
        r := 0;
      } else {
        r := -1;
      }
    }

    /** A port saw an interrupt: upcall (1, identifier, 0) if subscribed. */
    method Fired(identifier: nat)
      modifies this`upcalls
      ensures upcalls == old(upcalls) + (if callback.Some? then [Upcall(callback.value, 1, identifier, 0)] else [])
    {
      if callback.Some? {
        upcalls := upcalls + [Upcall(callback.value, 1, identifier, 0)];
      }
    }

    /** A port finished a request: upcall (0, value, 0) if subscribed. */
    method Done(value: nat)
      modifies this`upcalls
      ensures upcalls == old(upcalls) + (if callback.Some? then [Upcall(callback.value, 0, value, 0)] else [])
    {
      if callback.Some? {
        upcalls := upcalls + [Upcall(callback.value, 0, value, 0)];
      }
    }
  }
}
