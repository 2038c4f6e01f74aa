/** The PCA9544A I2C channel selector: a process chooses which of four
    downstream I2C channels are connected, or reads the selector's control
    register; each request answers with one upcall once the bus is done. */
module Pca9544a {
  import opened Kernel
  import opened TakeCells

  /** Which field of the control register a read reports. */
  datatype ControlField = InterruptMask | SelectedChannels

  datatype State = Idle | ReadControl(field: ControlField) | Done

  /** What the driver does outside itself, in order. */
  datatype Event =
    | I2cEnable
    | I2cDisable
    | I2cWrite(bytes: seq<bv8>)
    | I2cRead(len: nat)
    | Scheduled(upcall: Upcall)

  /** `field as usize` */
  function FieldCode(field: ControlField): nat
  {
    match field
    case InterruptMask => 0
    case SelectedChannels => 1
  }

  /*** The channel-enable command ***/

  /** Channel `c` is requested by the bit mask. */
  predicate Selected(mask: bv8, c: bv8)
    requires c < 4
  {
    mask & (1 << c) != 0
  }

  /** The enable bytes (channel number + 4) of the selected channels below `i`,
      in increasing channel order. */
  function ChannelsBelow(mask: bv8, i: bv8): seq<bv8>
    requires i <= 4
    decreases i
  {
    if i == 0 then []
    else ChannelsBelow(mask, i - 1) + (if Selected(mask, i - 1) then [i - 1 + 4] else [])
  }

  /** The bytes written to the selector: a zero that clears every channel,
      then one enable byte per selected channel. */
  function ChannelCommand(mask: bv8): seq<bv8>
  {
    [0] + ChannelsBelow(mask, 4)
  }

  lemma {:induction false} ChannelsBelowSpec(mask: bv8, i: bv8)
    requires i <= 4
    ensures var s := ChannelsBelow(mask, i);
      |s| <= i as int &&
      (forall k :: 0 <= k < |s| ==> 4 <= s[k] < 4 + i) &&
      (forall k, l :: 0 <= k < l < |s| ==> s[k] < s[l]) &&
      (forall c: bv8 :: c < i ==> (Selected(mask, c) <==> c + 4 in s))
    decreases i
  {
    if i > 0 {
      ChannelsBelowSpec(mask, i - 1);
    }
  }

  /** The selector receives at most five bytes: the clearing zero first, then
      exactly the selected channels' enable bytes (4 to 7), each once, in
      increasing order. */
  lemma ChannelCommandSpec(mask: bv8)
    ensures var s := ChannelCommand(mask);
      1 <= |s| <= 5 && s[0] == 0 &&
      (forall k :: 1 <= k < |s| ==> 4 <= s[k] < 8) &&
      (forall k, l :: 1 <= k < l < |s| ==> s[k] < s[l]) &&
      (forall c: bv8 :: c < 4 ==> (Selected(mask, c) <==> c + 4 in s[1..]))
  {
    ChannelsBelowSpec(mask, 4);
    assert ChannelCommand(mask)[1..] == ChannelsBelow(mask, 4);
  }

  /** The staging loop of select_channels: the zero, then an enable byte for
      each selected channel; `index` is the number of bytes to write. */
  method StageChannelCommand(b: array<bv8>, mask: bv8) returns (index: nat)
    requires b.Length >= 5
    modifies b
    ensures index == |ChannelCommand(mask)| <= b.Length
    ensures b[..index] == ChannelCommand(mask)
  {
    b[0] := 0;
    index := 1;
    var i: bv8 := 0;
    while i < 4
      invariant i <= 4
      invariant index == 1 + |ChannelsBelow(mask, i)| <= 1 + i as int
      invariant b[..index] == [0] + ChannelsBelow(mask, i)
      decreases 4 - i
    {
      ghost var before := b[..index];
      if mask & (1 << i) != 0 {
        b[index] := i + 4;
        assert b[..index + 1] == before + [i + 4];
        index := index + 1;
      }
      i := i + 1;
    }
  }

  /** Clearing every channel (command 2) writes the single zero byte. */
  lemma DisableAllWritesZero()
    ensures ChannelCommand(0) == [0]
  {
    assert ChannelsBelow(0, 0) == [];
    assert ChannelsBelow(0, 1) == [];
    assert ChannelsBelow(0, 2) == [];
    assert ChannelsBelow(0, 3) == [];
  }

  /*** The control register ***/

  /** The field reported to the process after a control-register read. */
  function ControlValue(field: ControlField, b: bv8): (v: bv8)
    ensures field == InterruptMask ==> v < 16
    ensures field == SelectedChannels ==> v < 8
  {
    match field
    case InterruptMask => (b >> 4) & 0x0F
    case SelectedChannels => b & 0x07
  }

  /** The two reported fields, together with the unreported bit 3, are the
      whole control register. */
  lemma ControlFieldsCoverRegister(b: bv8)
    ensures b == (ControlValue(InterruptMask, b) << 4) | (b & 0x08) | ControlValue(SelectedChannels, b)
  {
  }

  /*** The protocol, as a pure function of the phase ***/

  /** The upcall made when phase `s` completes on a register byte `b0`. */
  function CompletionUpcall(s: State, b0: bv8, cb: Callback): Upcall
  {
    match s
    case ReadControl(field) => Upcall(cb, FieldCode(field) + 1, ControlValue(field, b0) as nat, 0)
    case _ => Upcall(cb, 0, 0, 0)
  }

  /** The events of a completion in phase `s`. */
  function CompletionEvents(s: State, b0: bv8, callback: Option<Callback>): seq<Event>
  {
    if s == Idle then []
    else (if callback.Some? then [Scheduled(CompletionUpcall(s, b0, callback.value))] else []) + [I2cDisable]
  }

  /** The first upcall argument tells the process which request finished:
      0 for a channel selection, 1 for the interrupt mask, 2 for the selected
      channels; the second carries the field read, or 0. */
  lemma UpcallIdentifiesRequest(s: State, b0: bv8, cb: Callback)
    requires s != Idle
    ensures var u := CompletionUpcall(s, b0, cb);
      u.cb == cb && u.r2 == 0 &&
      (u.r0 == 0 <==> s == Done) &&
      (u.r0 == 1 <==> s == ReadControl(InterruptMask)) &&
      (u.r0 == 2 <==> s == ReadControl(SelectedChannels)) &&
      (s == Done ==> u.r1 == 0) &&
      (s.ReadControl? ==> u.r1 < 16)
  {
  }

  class PCA9544A {
    var state: State
    const buffer: InstrumentedTakeCell<array<bv8>>
    var callback: Option<Callback>
    /** The statically allocated five-byte buffer this driver owns. */
    ghost const Buf: array<bv8>
    ghost const Repr: set<object>
    ghost var trace: seq<Event>

    /** The buffer is in its cell exactly when no transaction is in flight. */
    ghost predicate Valid()
      reads this, buffer
    {
      Repr == {this, buffer, Buf} &&
      Buf.Length >= 5 &&
      (buffer.val != None <==> state == Idle) &&
      (buffer.val != None ==> buffer.val.value == Buf)
    }

    constructor (buf: array<bv8>)
      requires buf.Length >= 5
      ensures Valid() && fresh(buffer)
      ensures state == Idle && callback == None && Buf == buf && trace == []
    {
      state := Idle;
      buffer := new InstrumentedTakeCell.New(buf);
      callback := None;
      Buf := buf;
      Repr := {this, buffer, buf};
      trace := [];
    }

    /** Nothing observable changed. */
    twostate predicate Unchanged()
      reads this, buffer, Buf
    {
      state == old(state) && trace == old(trace) && buffer.val == old(buffer.val) &&
      Buf[..] == old(Buf[..]) && callback == old(callback)
    }

    /** The channel selection for `mask` is on the bus. */
    twostate predicate SelectionStarted(mask: bv8)
      reads this, buffer, Buf
    {
      state == Done && buffer.val == None && callback == old(callback) &&
      |ChannelCommand(mask)| <= Buf.Length &&
      Buf[..|ChannelCommand(mask)|] == ChannelCommand(mask) &&
      trace == old(trace) + [I2cEnable, I2cWrite(ChannelCommand(mask))]
    }

    /** A control-register read for `field` is on the bus. */
    twostate predicate ReadStarted(field: ControlField)
      reads this, buffer, Buf
    {
      state == ReadControl(field) && buffer.val == None && callback == old(callback) &&
      Buf[..] == old(Buf[..]) &&
      trace == old(trace) + [I2cEnable, I2cRead(1)]
    }

    /** select_channels: ENOMEM when a transaction is already in flight. */
    method SelectChannels(mask: bv8) returns (rc: ReturnCode)
      requires Valid()
      modifies Repr
      ensures Valid()
      ensures rc == (if old(buffer.val) == None then ENOMEM else SUCCESS)
      ensures old(buffer.val) == None ==> Unchanged()
      ensures old(buffer.val) != None ==> SelectionStarted(mask)
    {
      var taken := buffer.Take();
      if taken.None? {
        return ENOMEM;
      }
      var b := taken.value;
      trace := trace + [I2cEnable];
      var index := StageChannelCommand(b, mask);
      trace := trace + [I2cWrite(b[..index])];
      state := Done;
      rc := SUCCESS;
    }

    /** read_control: ENOMEM when a transaction is already in flight. */
    method ReadControlRegister(field: ControlField) returns (rc: ReturnCode)
      requires Valid()
      modifies Repr
      ensures Valid()
      ensures rc == (if old(buffer.val) == None then ENOMEM else SUCCESS)
      ensures old(buffer.val) == None ==> Unchanged()
      ensures old(buffer.val) != None ==> ReadStarted(field)
    {
      var taken := buffer.Take();
      if taken.None? {
        return ENOMEM;
      }
      trace := trace + [I2cEnable, I2cRead(1)];
      state := ReadControl(field);
      rc := SUCCESS;
    }

    /** The bus finished and hands the buffer back. */
    method CommandComplete(b: array<bv8>)
      requires Valid() && (state != Idle ==> b == Buf)
      modifies Repr
      ensures Valid()
      ensures old(state) == Idle ==> Unchanged()
      ensures old(state) != Idle ==> (state == Idle && buffer.val == Some(Buf) &&
        Buf[..] == old(Buf[..]) && callback == old(callback) &&
        trace == old(trace) + CompletionEvents(old(state), Buf[0], callback))
    {
      match state {
        case Idle =>
          return;
        case ReadControl(field) =>
          var ret := ControlValue(field, b[0]);
          if callback.Some? {
            trace := trace + [Scheduled(Upcall(callback.value, FieldCode(field) + 1, ret as nat, 0))];
          }
        case Done =>
          if callback.Some? {
            trace := trace + [Scheduled(Upcall(callback.value, 0, 0, 0))];
          }
      }
      var _ := buffer.Replace(b);
      trace := trace + [I2cDisable];
      state := Idle;
    }

    method Subscribe(subscribeNum: nat, cb: Callback) returns (r: int)
      requires Valid()
      modifies this`callback
      ensures Valid()
      ensures subscribeNum == 0 ==> r == 0 && callback == Some(cb)
      ensures subscribeNum != 0 ==> r == -1 && callback == old(callback)
    {
      if subscribeNum == 0 {
        callback := Some(cb);
        r := 0;
      } else {
        r := -1;
      }
    }

    /** Commands 1-4 answer 0 once the request is on the bus, and the negated
        ENOMEM code when a request is already in flight. */
    method Command(commandNum: nat, data: nat, appId: AppId) returns (r: int)
      requires Valid()
      modifies Repr
      ensures Valid()
      ensures commandNum == 0 || commandNum > 4 ==> Unchanged()
      ensures commandNum == 0 ==> r == 0
      ensures commandNum > 4 ==> r == -1
      ensures 1 <= commandNum <= 4 && old(buffer.val) == None ==>
        r == -(Discriminant(ENOMEM) as int) && Unchanged()
      ensures 1 <= commandNum <= 4 && old(buffer.val) != None ==> r == 0
      ensures commandNum == 1 && old(buffer.val) != None ==> SelectionStarted(AsU8(data))
      ensures commandNum == 2 && old(buffer.val) != None ==> SelectionStarted(0)
      ensures commandNum == 3 && old(buffer.val) != None ==> ReadStarted(InterruptMask)
      ensures commandNum == 4 && old(buffer.val) != None ==> ReadStarted(SelectedChannels)
    {
      var rc: ReturnCode;
      match commandNum {
        case 0 => return 0;
        case 1 => rc := SelectChannels(AsU8(data));
        case 2 => rc := SelectChannels(0);
        case 3 => rc := ReadControlRegister(InterruptMask);
        case 4 => rc := ReadControlRegister(SelectedChannels);
        case _ => return -1;
      }
      r := Discriminant(rc) as int * -1;
    }
  }
}
