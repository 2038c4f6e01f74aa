/** The FXOS8700CQ accelerometer driver. One process at a time owns the
    sensor: its read runs as a chain of four I2C transactions (probe, activate,
    read the six output registers, deactivate) and ends with an upcall
    carrying x, y and z in milli-g. Requests made while the sensor is busy are
    remembered in the requesting process's grant record and started, in
    process-table order, when the running read finishes. */
module Fxos8700cq {
  import opened Kernel
  import opened TakeCells

  // Register addresses.
  const OUT_X_MSB: bv8 := 0x01
  const WHO_AM_I: bv8 := 0x0D
  const CTRL_REG1: bv8 := 0x2A

  datatype State =
    | Disabled
    | Enabling
    | Activating
    | ReadingAcceleration
    | Deactivating(x: int, y: int, z: int)

  /** The per-process grant record. */
  datatype FxApp = FxApp(callback: Option<Callback>, pendingCommand: bool, command: nat)

  const DefaultApp := FxApp(None, false, 0)

  /** What the driver does outside itself, in order. */
  datatype Event =
    | I2cEnable
    | I2cDisable
    | I2cWrite(bytes: seq<bv8>)
    | I2cWriteRead(bytes: seq<bv8>, readLen: nat)
    | Scheduled(upcall: Upcall)

  /*** Converting the output registers ***/

  /** `((msb as i16) << 8) | lsb as i16`: the two bytes as a two's-complement
      16-bit value. */
  function Signed16(msb: bv8, lsb: bv8): (v: int)
    ensures -32768 <= v < 32768
    ensures v % 65536 == msb as int * 256 + lsb as int
  {
    var u := msb as int * 256 + lsb as int;
    if u >= 32768 then u - 65536 else u
  }

  /** isize division, which truncates toward zero. */
  function TruncDiv(a: int, d: int): (q: int)
    requires d > 0
  {
    if a >= 0 then a / d else -((-a) / d)
  }

  /** The 14-bit sample (an arithmetic shift right by 2, which floors) scaled
      by 0.244 mg per count: the value reported, in milli-g. */
  function MilliG(raw: int): (v: int)
    requires -32768 <= raw < 32768
    ensures -1998 <= v <= 1998
    ensures raw >= 0 ==> v >= 0
    ensures raw < 0 ==> v <= 0
  {
    TruncDiv((raw / 4) * 244, 1000)
  }

  function AxisValue(msb: bv8, lsb: bv8): (v: int)
    ensures -1998 <= v <= 1998
  {
    MilliG(Signed16(msb, lsb))
  }

  /** Full scale is +-2 g: 1 g reads as 0x4000 and -1 g as 0xC000. */
  lemma OneG()
    ensures AxisValue(0x40, 0x00) == 999
    ensures AxisValue(0xC0, 0x00) == -999
    ensures AxisValue(0x00, 0x00) == 0
  {
  }

  lemma TruncDivMonotone(a: int, b: int)
    requires a <= b
    ensures TruncDiv(a, 1000) <= TruncDiv(b, 1000)
  {
    if a < 0 && b >= 0 {
    } else if a < 0 {
      assert (-b) / 1000 <= (-a) / 1000;
    } else {
      assert a / 1000 <= b / 1000;
    }
  }

  /** A larger sample never reads as a smaller acceleration. */
  lemma MilliGMonotone(r1: int, r2: int)
    requires -32768 <= r1 <= r2 < 32768
    ensures MilliG(r1) <= MilliG(r2)
  {
    assert r1 / 4 <= r2 / 4;
    TruncDivMonotone((r1 / 4) * 244, (r2 / 4) * 244);
  }

  /** The reading fits the `i16` it is stored in, and the process gets it back
      exactly from the usize upcall argument. */
  lemma ReadingReachesTheProcess(msb: bv8, lsb: bv8)
    ensures -32768 <= AxisValue(msb, lsb) < 32768
    ensures AsIsize(AsUsize(AxisValue(msb, lsb))) == AxisValue(msb, lsb)
  {
    SignedWordRoundTrip(AxisValue(msb, lsb));
  }

  /*** Running queued requests ***/

  /** A queued request that starts a read (only command 0 does). */
  predicate Runnable(apps: Grant<FxApp>, k: nat)
    requires k < |apps|
  {
    apps[k].Some? && apps[k].value.pendingCommand && apps[k].value.command == 0
  }

  function ClearPending(a: Option<FxApp>): Option<FxApp>
  {
    if a.Some? then Some(a.value.(pendingCommand := false)) else None
  }

  /** The scan after a read finishes, from slot `i`: each queued request is
      dequeued and its process made the owner; the first one that is a read
      starts and ends the scan, any other is dropped and the scan goes on.
      Yields the new records, the owner and whether a read started. */
  function Drain(apps: Grant<FxApp>, i: nat, owner: Option<AppId>): (Grant<FxApp>, Option<AppId>, bool)
    requires i <= |apps|
    decreases |apps| - i
  {
    if i == |apps| then (apps, owner, false)
    else if apps[i].Some? && apps[i].value.pendingCommand then
      var apps' := apps[i := ClearPending(apps[i])];
      if apps[i].value.command == 0 then (apps', Some(i), true)
      else Drain(apps', i + 1, Some(i))
    else Drain(apps, i + 1, owner)
  }

  /** A read starts exactly when some process queued one; it is the first
      such process in table order, which becomes the owner. */
  lemma {:induction false} DrainStartsFirstRunnable(apps: Grant<FxApp>, i: nat, owner: Option<AppId>)
    requires i <= |apps|
    ensures var (a, c, started) := Drain(apps, i, owner);
      |a| == |apps| &&
      (started <==> exists k :: i <= k < |apps| && Runnable(apps, k)) &&
      (started ==> c.Some? && i <= c.value < |apps| && Runnable(apps, c.value) &&
                   forall j :: i <= j < c.value ==> !Runnable(apps, j))
    decreases |apps| - i
  {
    if i < |apps| {
      if apps[i].Some? && apps[i].value.pendingCommand {
        var apps' := apps[i := ClearPending(apps[i])];
        if apps[i].value.command != 0 {
          DrainStartsFirstRunnable(apps', i + 1, Some(i));
          assert forall k :: i + 1 <= k < |apps| ==> (Runnable(apps', k) <==> Runnable(apps, k));
          assert !Runnable(apps, i);
        } else {
          assert Runnable(apps, i);
        }
      } else {
        DrainStartsFirstRunnable(apps, i + 1, owner);
      }
    }
  }

  /** Every queued request the scan passes over is dequeued, up to and
      including the one started; nothing else in any record changes. */
  lemma {:induction false} DrainClearsVisited(apps: Grant<FxApp>, i: nat, owner: Option<AppId>)
    requires i <= |apps|
    ensures var (a, c, started) := Drain(apps, i, owner);
      |a| == |apps| &&
      (started ==> c.Some? && i <= c.value < |apps|) &&
      forall j :: 0 <= j < |apps| ==>
        a[j] == if i <= j && (!started || j <= c.value) then ClearPending(apps[j]) else apps[j]
    decreases |apps| - i
  {
    if i < |apps| {
      if apps[i].Some? && apps[i].value.pendingCommand {
        var apps' := apps[i := ClearPending(apps[i])];
        if apps[i].value.command != 0 {
          DrainClearsVisited(apps', i + 1, Some(i));
        } else {
          assert Drain(apps, i, owner) == (apps', Some(i), true);
        }
      } else {
        DrainClearsVisited(apps, i + 1, owner);
      }
    }
  }

  /** When the queue holds requests but none is a read, the last of them
      still becomes the owner and no read runs: every later request from any
      process is queued behind an owner that will never finish. */
  lemma {:induction false} DrainWithoutReadKeepsOwner(apps: Grant<FxApp>, i: nat, owner: Option<AppId>)
    requires i <= |apps|
    ensures var (a, c, started) := Drain(apps, i, owner);
      !started ==>
        ((exists k :: i <= k < |apps| && apps[k].Some? && apps[k].value.pendingCommand) ==> c.Some?) &&
        ((forall k :: i <= k < |apps| ==> !(apps[k].Some? && apps[k].value.pendingCommand)) ==> c == owner)
    decreases |apps| - i
  {
    if i < |apps| {
      if apps[i].Some? && apps[i].value.pendingCommand {
        var apps' := apps[i := ClearPending(apps[i])];
        if apps[i].value.command != 0 {
          DrainWithoutReadKeepsOwner(apps', i + 1, Some(i));
        }
      } else {
        DrainWithoutReadKeepsOwner(apps, i + 1, owner);
      }
    }
  }

  /** The events of the completions that precede the last one. */
  function AdvanceEvents(s: State, buf: seq<bv8>): seq<Event>
    requires |buf| >= 2
  {
    match s
    case Enabling => [I2cWrite([CTRL_REG1, 1])]
    case Activating => [I2cWriteRead([OUT_X_MSB], 6)]
    case ReadingAcceleration => [I2cWrite([0, buf[1]])]
    case _ => []
  }

  /** The phase after a completion that is not the last one. */
  function AdvanceState(s: State, buf: seq<bv8>): State
    requires |buf| >= 6
  {
    match s
    case Enabling => Activating
    case Activating => ReadingAcceleration
    case ReadingAcceleration =>
      Deactivating(AxisValue(buf[0], buf[1]), AxisValue(buf[2], buf[3]), AxisValue(buf[4], buf[5]))
    case _ => s
  }

  /** A read takes four completions, the last one in Deactivating carrying
      the converted sample. */
  lemma AdvanceReachesDeactivating(buf: seq<bv8>)
    requires |buf| >= 6
    ensures AdvanceState(AdvanceState(AdvanceState(Enabling, buf), buf), buf).Deactivating?
    ensures AdvanceState(ReadingAcceleration, buf).x == AxisValue(buf[0], buf[1])
    ensures AdvanceState(ReadingAcceleration, buf).y == AxisValue(buf[2], buf[3])
    ensures AdvanceState(ReadingAcceleration, buf).z == AxisValue(buf[4], buf[5])
  {
  }

  class Fxos8700cq {
    var state: State
    const buffer: InstrumentedTakeCell<array<bv8>>
    var apps: Grant<FxApp>
    var currentApp: Option<AppId>
    /** The statically allocated six-byte buffer this driver owns. */
    ghost const Buf: array<bv8>
    ghost const Repr: set<object>
    ghost var trace: seq<Event>

    /** While a read is in flight the bus holds the buffer and some process
        owns the sensor; an owner always has a grant record. */
    ghost predicate Valid()
      reads this, buffer
    {
      Repr == {this, buffer, Buf} &&
      Buf.Length >= 6 &&
      (buffer.val != None ==> buffer.val.value == Buf && state in {Disabled, Enabling}) &&
      (buffer.val == None ==> state != Disabled && currentApp.Some?) &&
      (currentApp.Some? ==> currentApp.value < |apps| && apps[currentApp.value].Some?)
    }

    /** One grant slot per process; the driver starts in `Enabling`. */
    constructor (buf: array<bv8>, processes: nat)
      requires buf.Length >= 6
      ensures Valid() && fresh(buffer)
      ensures state == Enabling && buffer.val == Some(buf) && Buf == buf
      ensures apps == seq(processes, _ => None) && currentApp == None && trace == []
    {
      state := Enabling;
      buffer := new InstrumentedTakeCell.New(buf);
      apps := seq(processes, _ => None);
      currentApp := None;
      Buf := buf;
      Repr := {this, buffer, buf};
      trace := [];
    }

    /** start_read_accel: probe WHO_AM_I. It panics when the buffer is out;
        every caller runs it only while the buffer is in its cell. */
    method StartReadAccel()
      requires Valid() && buffer.val != None && currentApp.Some?
      modifies Repr
      ensures Valid()
      ensures state == Enabling && buffer.val == None && Buf[..] == old(Buf[..])[0 := WHO_AM_I]
      ensures apps == old(apps) && currentApp == old(currentApp)
      ensures trace == old(trace) + [I2cEnable, I2cWriteRead([WHO_AM_I], 1)]
    {
      var taken := buffer.Take();
      var b := taken.value;
      trace := trace + [I2cEnable];
      b[0] := WHO_AM_I;
      assert b[..1] == [WHO_AM_I];
      trace := trace + [I2cWriteRead(b[..1], 1)];
      state := Enabling;
    }

    /** A completion before the last: the next transaction of the read. */
    method Advance(b: array<bv8>)
      requires Valid() && buffer.val == None && b == Buf
      requires state in {Enabling, Activating, ReadingAcceleration}
      modifies Buf, this`state, this`trace
      ensures Valid() && buffer.val == None
      ensures state == AdvanceState(old(state), old(Buf[..]))
      ensures trace == old(trace) + AdvanceEvents(old(state), old(Buf[..]))
    {
      match state {
        case Enabling =>
          b[0] := CTRL_REG1;
          b[1] := 1;
          assert b[..2] == [CTRL_REG1, 1];
          trace := trace + [I2cWrite(b[..2])];
          state := Activating;
        case Activating =>
          b[0] := OUT_X_MSB;
          assert b[..1] == [OUT_X_MSB];
          trace := trace + [I2cWriteRead(b[..1], 6)];
          state := ReadingAcceleration;
        case ReadingAcceleration =>
          ghost var before := b[..];
          assert AdvanceState(state, before) ==
            Deactivating(AxisValue(b[0], b[1]), AxisValue(b[2], b[3]), AxisValue(b[4], b[5]));
          var x := AxisValue(b[0], b[1]);
          var y := AxisValue(b[2], b[3]);
          var z := AxisValue(b[4], b[5]);
          b[0] := 0;
          assert b[..2] == [0, before[1]];
          trace := trace + [I2cWrite(b[..2])];
          state := Deactivating(x, y, z);
      }
    }

    /** The scan for queued requests after a read finished. */
    method DrainPending() returns (running: bool)
      requires Valid() && currentApp == None && buffer.val != None
      modifies Repr
      ensures Valid()
      ensures (apps, currentApp, running) == Drain(old(apps), 0, None)
      ensures running ==> (state == Enabling && buffer.val == None &&
        Buf[..] == old(Buf[..])[0 := WHO_AM_I] &&
        trace == old(trace) + [I2cEnable, I2cWriteRead([WHO_AM_I], 1)])
      ensures !running ==> (state == old(state) && buffer.val == old(buffer.val) &&
        Buf[..] == old(Buf[..]) && trace == old(trace))
    {
      running := false;
      var i := 0;
      while i < |apps|
        invariant i <= |apps| == |old(apps)|
        invariant Drain(apps, i, currentApp) == Drain(old(apps), 0, None)
        invariant currentApp.Some? ==> currentApp.value < |apps| && apps[currentApp.value].Some?
        invariant state == old(state) && buffer.val == old(buffer.val) && Buf[..] == old(Buf[..])
        invariant trace == old(trace)
        decreases |apps| - i
      {
        if apps[i].Some? && apps[i].value.pendingCommand {
          var app := apps[i].value;
          apps := apps[i := Some(app.(pendingCommand := false))];
          currentApp := Some(i);
          if app.command == 0 {
            StartReadAccel();
            running := true;
            return;
          }
        }
        i := i + 1;
      }
    }

    /** The last completion: power down, return the buffer, hand the sample
        to the owner, then start the first queued read. The owner's record
        must hold a callback (the driver panics otherwise). */
    method FinishRead(b: array<bv8>) returns (running: bool)
      requires Valid() && buffer.val == None && b == Buf && state.Deactivating?
      requires apps[currentApp.value].value.callback.Some?
      modifies Repr
      ensures Valid()
      ensures (apps, currentApp, running) == Drain(old(apps), 0, None)
      ensures var cb := old(apps[currentApp.value].value.callback.value);
        var up := [Scheduled(Upcall(cb, AsUsize(old(state).x), AsUsize(old(state).y), AsUsize(old(state).z)))];
        (running ==> (state == Enabling && buffer.val == None &&
           trace == old(trace) + [I2cDisable] + up + [I2cEnable, I2cWriteRead([WHO_AM_I], 1)])) &&
        (!running ==> (state == Disabled && buffer.val == Some(Buf) &&
           trace == old(trace) + [I2cDisable] + up))
    {
      var Deactivating(x, y, z) := state;
      trace := trace + [I2cDisable];
      state := Disabled;
      var _ := buffer.Replace(b);
      var owner := currentApp.value;
      currentApp := None;
      var app := apps[owner].value;
      trace := trace + [Scheduled(Upcall(app.callback.value, AsUsize(x), AsUsize(y), AsUsize(z)))];
      running := DrainPending();
    }

    /** The bus finished a transaction and hands the buffer back. A
        completion arriving while disabled changes nothing. */
    method CommandComplete(b: array<bv8>)
      requires Valid() && (state == Disabled || (buffer.val == None && b == Buf))
      requires state.Deactivating? ==> apps[currentApp.value].value.callback.Some?
      modifies Repr
      ensures Valid()
      ensures old(state) == Disabled ==>
        state == Disabled && buffer.val == old(buffer.val) && apps == old(apps) &&
        currentApp == old(currentApp) && trace == old(trace) && Buf[..] == old(Buf[..])
      ensures !old(state).Deactivating? && old(state) != Disabled ==>
        buffer.val == None && apps == old(apps) && currentApp == old(currentApp) &&
        state == AdvanceState(old(state), old(Buf[..])) &&
        trace == old(trace) + AdvanceEvents(old(state), old(Buf[..]))
      ensures old(state).Deactivating? ==>
        var d := Drain(old(apps), 0, None);
        var cb := old(apps[currentApp.value].value.callback.value);
        var up := [Scheduled(Upcall(cb, AsUsize(old(state).x), AsUsize(old(state).y), AsUsize(old(state).z)))];
        apps == d.0 && currentApp == d.1 &&
        (d.2 ==> (state == Enabling && buffer.val == None &&
           trace == old(trace) + [I2cDisable] + up + [I2cEnable, I2cWriteRead([WHO_AM_I], 1)])) &&
        (!d.2 ==> (state == Disabled && buffer.val == Some(Buf) &&
           trace == old(trace) + [I2cDisable] + up))
    {
      if state == Disabled {
        return;
      } else if state.Deactivating? {
        var _ := FinishRead(b);
      } else {
        Advance(b);
      }
    }

    /** Subscribe 0 stores the callback in the caller's grant record;
        -1 when the process has no grant or for any other number. */
    method Subscribe(subscribeNum: nat, cb: Callback) returns (r: int)
      requires Valid()
      modifies this`apps
      ensures Valid()
      ensures subscribeNum == 0 && CanEnter(old(apps), cb.appId) ==>
        r == 0 && apps == old(apps)[cb.appId := Some(Entered(old(apps), cb.appId, DefaultApp).(callback := Some(cb)))]
      ensures subscribeNum != 0 || !CanEnter(old(apps), cb.appId) ==> r == -1 && apps == old(apps)
    {
      if subscribeNum != 0 || !CanEnter(apps, cb.appId) {
        return -1;
      }
      var app := Entered(apps, cb.appId, DefaultApp);
      apps := apps[cb.appId := Some(app.(callback := Some(cb)))];
      r := 0;
    }

    /** An idle driver gives the sensor to the caller and, for command 0,
        starts a read (0); any other command still makes the caller the owner
        but starts nothing (-1). A busy driver queues the command in the
        caller's record (-10). -1 when the process has no grant. */
    method Command(commandNum: nat, arg1: nat, appId: AppId) returns (r: int)
      requires Valid()
      modifies Repr
      ensures Valid()
      ensures !CanEnter(old(apps), appId) ==>
        r == -1 && apps == old(apps) && currentApp == old(currentApp) &&
        state == old(state) && buffer.val == old(buffer.val) && trace == old(trace)
      ensures CanEnter(old(apps), appId) && old(currentApp).Some? ==>
        r == -10 && currentApp == old(currentApp) &&
        apps == old(apps)[appId := Some(Entered(old(apps), appId, DefaultApp).(pendingCommand := true, command := commandNum))] &&
        state == old(state) && buffer.val == old(buffer.val) && trace == old(trace)
      ensures CanEnter(old(apps), appId) && old(currentApp).None? ==>
        currentApp == Some(appId) &&
        apps == old(apps)[appId := Some(Entered(old(apps), appId, DefaultApp))] &&
        r == (if commandNum == 0 then 0 else -1) &&
        (commandNum == 0 ==> (state == Enabling && buffer.val == None &&
           trace == old(trace) + [I2cEnable, I2cWriteRead([WHO_AM_I], 1)])) &&
        (commandNum != 0 ==> state == old(state) && buffer.val == old(buffer.val) && trace == old(trace))
    {
      if !CanEnter(apps, appId) {
        return -1;
      }
      var app := Entered(apps, appId, DefaultApp);
      if currentApp.None? {
        apps := apps[appId := Some(app)];
        currentApp := Some(appId);
        if commandNum == 0 {
          StartReadAccel();
          r := 0;
        } else {
          r := -1;
        }
      } else {
        apps := apps[appId := Some(app.(pendingCommand := true, command := commandNum))];
        r := -10;
      }
    }
  }
}
