/** The nRF51822 serialization driver: the UART channel a process uses to talk
    to the nRF51822 radio co-processor. The single process shares a transmit
    and a receive slice with the driver (`allow`) and one callback
    (`subscribe`); `command 0` copies the transmit slice into the kernel's
    transmit buffer and starts the UART, and every completed reception is
    copied into the receive slice and announced to the process.

    The UART and the debug pins are outside the model: starting a transfer,
    driving the PC09 debug pin and scheduling an upcall are events on a ghost
    trace. */
module Nrf51822Serialization {
  import opened Kernel
  import opened TakeCells

  /** A process memory region shared through `allow`. */
  type AppSlice = array<bv8>

  /** The per-process record. */
  datatype NrfApp = NrfApp(
    callback: Option<Callback>,
    txBuffer: Option<AppSlice>,
    rxBuffer: Option<AppSlice>,
    rxRecvSoFar: nat,
    rxRecvTotal: nat)

  /** The record created when a call finds none. */
  const NoApp := NrfApp(None, None, None, 0, 0)

  /** The record a call starts from: the stored one, or a fresh one. */
  function Current(a: Option<NrfApp>): (app: NrfApp)
    ensures a.Some? ==> app == a.value
    ensures a.None? ==> app.callback == None && app.txBuffer == None && app.rxBuffer == None
  {
    if a.Some? then a.value else NoApp
  }

  /** Bytes the UART is asked to receive per transfer. */
  const RECEIVE_LEN: nat := 250

  /** Upcall codes: transmit done, data received, wake-up. */
  const TX_DONE: nat := 1
  const RX_DONE: nat := 4
  const WAKE_UP: nat := 17

  /** What the driver does outside itself, in order. */
  datatype Event =
    | Transmit(bytes: seq<bv8>)        // uart.transmit of the kernel buffer's first bytes
    | ReceiveAutomatic(len: nat)       // uart.receive_automatic
    | Pc09(level: bool)                // PC09 debug pin: true for set, false for clear
    | Scheduled(upcall: Upcall)

  /** The upcall `(code, r1, 0)` if the process subscribed. */
  function Notify(a: Option<NrfApp>, code: nat, r1: nat): (e: seq<Event>)
    ensures |e| <= 1
    ensures e != [] <==> a.Some? && a.value.callback.Some?
    ensures e != [] ==> e[0] == Scheduled(Upcall(a.value.callback.value, code, r1, 0))
  {
    if a.Some? && a.value.callback.Some? then [Scheduled(Upcall(a.value.callback.value, code, r1, 0))] else []
  }

  /** Bytes a reception of `rxLen` bytes copies into a slice of `sliceLen`. */
  function CopyLen(rxLen: nat, sliceLen: nat): (n: nat)
    ensures n <= rxLen && n <= sliceLen
    ensures n == rxLen || n == sliceLen
  {
    if sliceLen < rxLen then sliceLen else rxLen
  }

  /** What a reception does outside the driver: the copy is bracketed by the
      PC09 debug pin and followed by the `(4, rx_len, 0)` upcall, all only
      when the process shared a receive slice. */
  function ReceiveEvents(a: Option<NrfApp>, rxLen: nat): seq<Event>
  {
    if a.Some? && a.value.rxBuffer.Some? then [Pc09(false), Pc09(true)] + Notify(a, RX_DONE, rxLen) else []
  }

  /** A reception reaches the process exactly when it has shared a receive
      slice and subscribed, and the upcall carries the full received length
      even when the slice was too short for it. */
  lemma ReceptionNotifies(a: Option<NrfApp>, rxLen: nat)
    ensures (exists k :: 0 <= k < |ReceiveEvents(a, rxLen)| && ReceiveEvents(a, rxLen)[k].Scheduled?) <==>
      a.Some? && a.value.rxBuffer.Some? && a.value.callback.Some?
    ensures a.Some? && a.value.rxBuffer.Some? && a.value.callback.Some? ==>
      ReceiveEvents(a, rxLen)[2] == Scheduled(Upcall(a.value.callback.value, RX_DONE, rxLen, 0))
  {
    var e := ReceiveEvents(a, rxLen);
    if a.Some? && a.value.rxBuffer.Some? && a.value.callback.Some? {
      assert e[2].Scheduled?;
    }
  }

  /** Copies the first `n` bytes of `src` into `dst`; the rest of `dst` keeps
      its contents. Both copy loops of the driver are this loop. */
  method CopyPrefix(dst: array<bv8>, src: array<bv8>, n: nat)
    requires dst != src && n <= dst.Length && n <= src.Length
    modifies dst
    ensures dst[..n] == old(src[..n])
    ensures dst[n..] == old(dst[n..])
  {
    var idx := 0;
    while idx < n
      invariant idx <= n
      invariant dst[..idx] == src[..idx]
      invariant dst[n..] == old(dst[n..])
    {
      dst[idx] := src[idx];
      idx := idx + 1;
    }
  }

  class Nrf51822Serialization {
    const app: InstrumentedTakeCell<NrfApp>
    const txBuffer: InstrumentedTakeCell<array<bv8>>
    const rxBuffer: InstrumentedTakeCell<array<bv8>>
    /** The kernel's static transmit and receive buffers. */
    ghost const TxBuf: array<bv8>
    ghost const RxBuf: array<bv8>
    ghost var trace: seq<Event>

    /** The three cells are distinct; each buffer cell holds its own static
        buffer or is empty (the UART holds it); the process's slices are
        process memory, never the kernel's buffers. */
    ghost predicate Valid()
      reads this, app, txBuffer, rxBuffer
    {
      app as object != txBuffer && app as object != rxBuffer && txBuffer != rxBuffer && TxBuf != RxBuf &&
      (txBuffer.val == None || txBuffer.val == Some(TxBuf)) &&
      (rxBuffer.val == None || rxBuffer.val == Some(RxBuf)) &&
      (app.val.Some? && app.val.value.txBuffer.Some? ==> app.val.value.txBuffer.value !in {TxBuf, RxBuf}) &&
      (app.val.Some? && app.val.value.rxBuffer.Some? ==> app.val.value.rxBuffer.value !in {TxBuf, RxBuf})
    }

    /** The process's receive slice, the only process memory the driver writes. */
    ghost function RxSlice(): set<object>
      reads this, app
    {
      if app.val.Some? && app.val.value.rxBuffer.Some? then {app.val.value.rxBuffer.value} else {}
    }

    constructor (txBuf: array<bv8>, rxBuf: array<bv8>)
      requires txBuf != rxBuf
      ensures Valid() && TxBuf == txBuf && RxBuf == rxBuf
      ensures app.val == None && txBuffer.val == Some(txBuf) && rxBuffer.val == Some(rxBuf) && trace == []
      ensures fresh(app) && fresh(txBuffer) && fresh(rxBuffer)
    {
      app := new InstrumentedTakeCell.Empty();
      txBuffer := new InstrumentedTakeCell.New(txBuf);
      rxBuffer := new InstrumentedTakeCell.New(rxBuf);
      TxBuf := txBuf;
      RxBuf := rxBuf;
      trace := [];
    }

    /** allow 0 shares the receive slice and restarts the reception counters;
        allow 1 shares the transmit slice. Either creates the record if
        there is none and keeps the record's other fields; any other type is
        refused with -1. */
    method Allow(allowType: nat, slice: AppSlice) returns (r: int)
      requires Valid() && slice !in {TxBuf, RxBuf}
      modifies app`val
      ensures Valid()
      ensures allowType == 0 ==> (r == 0 &&
        app.val == Some(Current(old(app.val)).(rxBuffer := Some(slice), rxRecvSoFar := 0, rxRecvTotal := 0)))
      ensures allowType == 1 ==> r == 0 && app.val == Some(Current(old(app.val)).(txBuffer := Some(slice)))
      ensures allowType > 1 ==> r == -1 && app.val == old(app.val)
    {
      if allowType == 0 {
        var taken := app.Take();
        var resapp := if taken.Some? then taken.value.(rxBuffer := Some(slice), rxRecvSoFar := 0, rxRecvTotal := 0)
                      else NrfApp(None, None, Some(slice), 0, 0);
        var _ := app.Replace(resapp);
        r := 0;
      } else if allowType == 1 {
        var taken := app.Take();
        var resapp := if taken.Some? then taken.value.(txBuffer := Some(slice))
                      else NrfApp(None, Some(slice), None, 0, 0);
        var _ := app.Replace(resapp);
        r := 0;
      } else {
        r := -1;
      }
    }

    /** subscribe 0 stores the callback. A subscribe that finds no record (no
        earlier allow or subscribe) also starts the UART reception with the
        kernel's receive buffer, if it is still in its cell; after an allow it
        does not. Any other type is refused with -1. */
    method Subscribe(subscribeType: nat, cb: Callback) returns (r: int)
      requires Valid()
      modifies app`val, rxBuffer`val, this`trace
      ensures Valid()
      ensures subscribeType == 0 ==> r == 0 && app.val == Some(Current(old(app.val)).(callback := Some(cb)))
      ensures subscribeType == 0 && old(app.val) == None ==>
        rxBuffer.val == None &&
        trace == old(trace) + (if old(rxBuffer.val) != None then [ReceiveAutomatic(RECEIVE_LEN)] else [])
      ensures subscribeType == 0 && old(app.val) != None ==> rxBuffer.val == old(rxBuffer.val) && trace == old(trace)
      ensures subscribeType != 0 ==>
        r == -1 && app.val == old(app.val) && rxBuffer.val == old(rxBuffer.val) && trace == old(trace)
    {
      if subscribeType != 0 {
        return -1;
      }
      var taken := app.Take();
      var resapp;
      if taken.Some? {
        resapp := taken.value.(callback := Some(cb));
      } else {
        var buffer := rxBuffer.Take();
        if buffer.Some? {
          trace := trace + [ReceiveAutomatic(RECEIVE_LEN)];
        }
        resapp := NrfApp(Some(cb), None, None, 0, 0);
      }
      var _ := app.Replace(resapp);
      r := 0;
    }

    /** command 0 sends the transmit slice: -1 without a record, -2 without a
        slice; otherwise the slice is consumed, copied into the kernel's
        transmit buffer and its whole length transmitted (when the buffer is
        in its cell; a transfer still in flight leaves the slice unsent), and
        0 is returned. command 9001 wakes the process with the upcall
        `(17, 0, 0)` and returns 0; anything else is -1.

        The copy has no bounds check, so a slice longer than the transmit
        buffer is excluded here. */
    method Command(commandType: nat) returns (r: int)
      requires Valid()
      requires app.val.Some? && app.val.value.txBuffer.Some? && txBuffer.val.Some? ==>
        app.val.value.txBuffer.value.Length <= TxBuf.Length
      modifies app`val, txBuffer`val, TxBuf, this`trace
      ensures Valid()
      ensures commandType == 0 && (old(app.val) == None || old(app.val).value.txBuffer == None) ==>
        r == (if old(app.val) == None then -1 else -2) &&
        app.val == old(app.val) && txBuffer.val == old(txBuffer.val) && trace == old(trace) &&
        TxBuf[..] == old(TxBuf[..])
      ensures commandType == 0 && old(app.val) != None && old(app.val).value.txBuffer != None ==>
        var slice := old(app.val).value.txBuffer.value;
        r == 0 && app.val == Some(old(app.val).value.(txBuffer := None)) &&
        (old(txBuffer.val) == None ==> (txBuffer.val == None && trace == old(trace) && TxBuf[..] == old(TxBuf[..]))) &&
        (old(txBuffer.val) != None ==> (txBuffer.val == None &&
           TxBuf[..slice.Length] == old(slice[..]) && TxBuf[slice.Length..] == old(TxBuf[slice.Length..]) &&
           trace == old(trace) + [Transmit(old(slice[..]))]))
      ensures commandType == 9001 ==>
        r == 0 && app.val == old(app.val) && txBuffer.val == old(txBuffer.val) && TxBuf[..] == old(TxBuf[..]) &&
        trace == old(trace) + Notify(old(app.val), WAKE_UP, 0)
      ensures commandType !in {0, 9001} ==>
        r == -1 && app.val == old(app.val) && txBuffer.val == old(txBuffer.val) && TxBuf[..] == old(TxBuf[..]) &&
        trace == old(trace)
    {
      if commandType == 0 {
        var taken := app.Take();
        if taken.None? {
          return -1;
        }
        var appst := taken.value;
        if appst.txBuffer.None? {
          var _ := app.Replace(appst);
          return -2;
        }
        var slice := appst.txBuffer.value;
        appst := appst.(txBuffer := None);
        var writeLen := slice.Length;
        var buffer := txBuffer.Take();
        if buffer.Some? {
          CopyPrefix(buffer.value, slice, writeLen);
          trace := trace + [Transmit(buffer.value[..writeLen])];
        }
        var _ := app.Replace(appst);
        r := 0;
      } else if commandType == 9001 {
        trace := trace + Notify(app.val, WAKE_UP, 0);
        r := 0;
      } else {
        r := -1;
      }
    }

    /** The UART finished sending: the transmit buffer returns to its cell and
        the process gets the upcall `(1, 0, 0)`. */
    method TransmitComplete(buffer: array<bv8>)
      requires Valid() && buffer == TxBuf
      modifies txBuffer`val, this`trace
      ensures Valid() && txBuffer.val == Some(TxBuf)
      ensures trace == old(trace) + Notify(app.val, TX_DONE, 0)
    {
      var _ := txBuffer.Replace(buffer);
      trace := trace + Notify(app.val, TX_DONE, 0);
    }

    /** The body of the receive closure, run on the record taken out of the
        app cell while the kernel's receive buffer is in its cell: the first
        `min(rx_len, slice length)` received bytes are copied into the
        process's receive slice, under the PC09 debug pin, and the process is
        told `(4, rx_len, 0)`. The record itself comes back unchanged. */
    method InsideReceiveClosure(appst: NrfApp, rxLen: nat) returns (appst': NrfApp)
      requires Valid() && rxBuffer.val == Some(RxBuf)
      requires appst.rxBuffer.Some? ==> (appst.rxBuffer.value != RxBuf &&
        CopyLen(rxLen, appst.rxBuffer.value.Length) <= RxBuf.Length)
      modifies if appst.rxBuffer.Some? then {appst.rxBuffer.value} else {}, this`trace
      ensures appst' == appst
      ensures trace == old(trace) + ReceiveEvents(Some(appst), rxLen)
      ensures appst.rxBuffer.Some? ==>
        var rb := appst.rxBuffer.value;
        var n := CopyLen(rxLen, rb.Length);
        rb[..n] == old(RxBuf[..n]) && rb[n..] == old(rb[n..])
    {
      appst' := appst;
      if appst.rxBuffer.Some? {
        var rb := appst.rxBuffer.value;
        var maxLen := rxLen;
        if rb.Length < rxLen {
          maxLen := rb.Length;
        }
        trace := trace + [Pc09(false)];
        CopyPrefix(rb, rxBuffer.val.value, maxLen);
        trace := trace + [Pc09(true)];
        trace := trace + Notify(Some(appst), RX_DONE, rxLen);
      }
    }

    /** The app cell's `instrumented_map` with the receive closure as its
        body, run while the kernel's receive buffer is in its cell. */
    method MapReceiveClosure(rxLen: nat)
      requires Valid() && rxBuffer.val == Some(RxBuf)
      requires app.val.Some? && app.val.value.rxBuffer.Some? ==>
        CopyLen(rxLen, app.val.value.rxBuffer.value.Length) <= RxBuf.Length
      modifies app`val, app`debugPin, this`trace, RxSlice()
      ensures app.val == old(app.val)
      ensures app.debugPin == old(app.debugPin) + InstrumentedEdges(old(app.val) != None)
      ensures trace == old(trace) + ReceiveEvents(old(app.val), rxLen)
      ensures old(app.val).Some? && old(app.val).value.rxBuffer.Some? ==>
        var rb := old(app.val).value.rxBuffer.value;
        var n := CopyLen(rxLen, rb.Length);
        rb[..n] == old(RxBuf[..n]) && rb[n..] == old(rb[n..])
    {
      ghost var pins := app.debugPin;
      app.debugPin := app.debugPin + [false];
      var maybe := app.Take();
      app.debugPin := app.debugPin + [true, false];
      assert app.debugPin == pins + [false, true, false];
      if maybe.Some? {
        app.debugPin := app.debugPin + [true, false];
        var appst := InsideReceiveClosure(maybe.value, rxLen);
        app.debugPin := app.debugPin + [true, false];
        var _ := app.Replace(appst);
        app.debugPin := app.debugPin + [true, false];
        assert app.debugPin == pins + [false, true, false] + [true, false, true, false, true, false];
      } else {
        assert ReceiveEvents(maybe, rxLen) == [];
      }
      app.debugPin := app.debugPin + [true];
    }

    /** The UART received `rxLen` bytes into the receive buffer: the buffer
        returns to its cell, the receive closure runs through the app cell's
        `instrumented_map`, and reception is restarted with the same buffer. */
    method ReceiveComplete(buffer: array<bv8>, rxLen: nat)
      requires Valid() && buffer == RxBuf
      requires app.val.Some? && app.val.value.rxBuffer.Some? ==>
        CopyLen(rxLen, app.val.value.rxBuffer.value.Length) <= RxBuf.Length
      modifies rxBuffer`val, app`val, app`debugPin, this`trace, RxSlice()
      ensures Valid()
      ensures app.val == old(app.val) && rxBuffer.val == None
      ensures app.debugPin == old(app.debugPin) + InstrumentedEdges(old(app.val) != None)
      ensures trace == old(trace) + ReceiveEvents(old(app.val), rxLen) + [ReceiveAutomatic(RECEIVE_LEN)]
      ensures old(app.val).Some? && old(app.val).value.rxBuffer.Some? ==>
        var rb := old(app.val).value.rxBuffer.value;
        var n := CopyLen(rxLen, rb.Length);
        rb[..n] == old(RxBuf[..n]) && rb[n..] == old(rb[n..])
    {
      var _ := rxBuffer.Replace(buffer);
      MapReceiveClosure(rxLen);
      var restart := rxBuffer.Take();
      trace := trace + [ReceiveAutomatic(RECEIVE_LEN)];
    }
  }
}
