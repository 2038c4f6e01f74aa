/** The SAM4L chip's deferred interrupt servicing. The chip keeps a global
    ring-buffer queue of NVIC line identifiers, filled by code outside this
    file; the kernel's main loop calls
    `service_pending_interrupts`, which drains that queue in FIFO order,
    runs the peripheral's handler for each identifier and re-enables the
    line.

    Peripheral handlers and the NVIC are outside the model: running a handler
    and re-enabling a line are events on a ghost trace. */
module Sam4lChip {
  import opened Kernel

  /** The NVIC lines the service loop names, grouped by peripheral family
      (the index is the number in the source's variant name). Every other
      line of the NVIC enumeration is `Unlisted`. */
  datatype NvicIdx =
    | ASTALARM
    | USART(n: nat)
    | PDCA(n: nat)
    | GPIO(n: nat)
    | TWIM(n: nat)
    | TWIS(n: nat)
    | HFLASHC
    | ADCIFE
    | TRNG
    | Unlisted(code: nat)

  /** The variants that exist: USART0-3, PDCA0-15, GPIO0-11, TWIM0-3, TWIS0-1. */
  predicate Exists(i: NvicIdx)
  {
    match i
    case USART(n) => n < 4
    case PDCA(n) => n < 16
    case GPIO(n) => n < 12
    case TWIM(n) => n < 4
    case TWIS(n) => n < 2
    case _ => true
  }

  type Idx = i: NvicIdx | Exists(i) witness HFLASHC

  /** The three GPIO controllers. */
  datatype Port = PA | PB | PC

  /** The handler a dequeued line is routed to. */
  datatype Handler =
    | AstAlarm
    | Usart(index: nat)
    | DmaChannel(index: nat)
    | GpioPort(port: Port)
    | I2cMaster(index: nat)
    | I2cSlave(index: nat)
    | FlashController
    | Adc
    | Trng
    | NoHandler          // the catch-all arm: nothing runs

  /** The match of the service loop. Four GPIO lines share each controller
      (GPIO0-3 go to PA, 4-7 to PB, 8-11 to PC); every other listed line has a
      handler of its own. */
  function Dispatch(i: Idx): (h: Handler)
    ensures h.GpioPort? <==> i.GPIO?
    ensures h == NoHandler <==> i.Unlisted?
    ensures i.GPIO? ==> h.port == [PA, PB, PC][i.n / 4]
  {
    match i
    case ASTALARM => AstAlarm
    case USART(n) => Usart(n)
    case PDCA(n) => DmaChannel(n)
    case GPIO(n) => GpioPort(if n < 4 then PA else if n < 8 then PB else PC)
    case TWIM(n) => I2cMaster(n)
    case TWIS(n) => I2cSlave(n)
    case HFLASHC => FlashController
    case ADCIFE => Adc
    case TRNG => Trng
    case Unlisted(_) => NoHandler
  }

  /** Two different lines reach the same handler only when both are GPIO
      lines of the same bank of four, or both have no arm. */
  lemma DispatchManyToOne(a: Idx, b: Idx)
    requires a != b && Dispatch(a) == Dispatch(b)
    ensures (a.GPIO? && b.GPIO? && a.n / 4 == b.n / 4) || (a.Unlisted? && b.Unlisted?)
  {
    if a.GPIO? {
      assert [PA, PB, PC][a.n / 4] == [PA, PB, PC][b.n / 4];
    }
  }

  /** What servicing does outside the chip, in order. */
  datatype Action = Handled(handler: Handler) | Enabled(line: Idx)

  /** Servicing the queue `q`: for each line in FIFO order, its handler runs
      and then its line is re-enabled. */
  function ServiceTrace(q: seq<Idx>): seq<Action>
  {
    if q == [] then [] else [Handled(Dispatch(q[0])), Enabled(q[0])] + ServiceTrace(q[1..])
  }

  /** Entry `k` of the queue is handled by the 2k-th action and re-enabled by
      the next one; nothing else happens. So every dequeued line is
      re-enabled exactly once, after its handler, and in queue order. */
  lemma {:induction false} ServiceTraceShape(q: seq<Idx>)
    ensures |ServiceTrace(q)| == 2 * |q|
    ensures forall k :: 0 <= k < |q| ==>
      ServiceTrace(q)[2 * k] == Handled(Dispatch(q[k])) && ServiceTrace(q)[2 * k + 1] == Enabled(q[k])
  {
    if q != [] {
      ServiceTraceShape(q[1..]);
      var t := ServiceTrace(q);
      forall k | 0 <= k < |q|
        ensures t[2 * k] == Handled(Dispatch(q[k])) && t[2 * k + 1] == Enabled(q[k])
      {
        if k > 0 {
          assert t[2 * k] == ServiceTrace(q[1..])[2 * (k - 1)];
          assert t[2 * k + 1] == ServiceTrace(q[1..])[2 * (k - 1) + 1];
        }
      }
    }
  }

  /** Servicing two queued runs one after the other is servicing their
      concatenation. */
  lemma {:induction false} ServiceTraceAppend(a: seq<Idx>, b: seq<Idx>)
    ensures ServiceTrace(a + b) == ServiceTrace(a) + ServiceTrace(b)
  {
    if a == [] {
      assert a + b == b;
    } else {
      assert (a + b)[1..] == a[1..] + b;
      ServiceTraceAppend(a[1..], b);
    }
  }

  /** Number of slots of the interrupt queue's backing array. */
  const IQ_SIZE: nat := 100

  /** `x % m` for `x` below `2 * m`. */
  lemma WrapOnce(x: nat, m: nat)
    requires 0 < m && x < 2 * m
    ensures x % m == if x < m then x else x - m
  {
    if x >= m {
      assert x == (x - m) + m;
    }
  }

  /** The array slot of the element `k` places after a head at `h`. */
  function Pos(h: nat, k: nat, m: nat): (p: nat)
    requires 0 < m
    ensures p < m
  {
    (h + k) % m
  }

  /** The element at the head is in the head's slot. */
  lemma PosZero(h: nat, m: nat)
    requires h < m
    ensures Pos(h, 0, m) == h
  {
    WrapOnce(h, m);
  }

  /** Stepping the head forward one slot shifts every position by one. */
  lemma AdvanceHead(h: nat, k: nat, m: nat)
    requires h < m && k < m
    ensures Pos(Pos(h, 1, m), k, m) == Pos(h, k + 1, m)
  {
    WrapOnce(h + 1, m);
    WrapOnce((h + 1) % m + k, m);
    WrapOnce(h + (k + 1), m);
  }

  /** The kernel's ring buffer over a fixed array: `count` elements stored
      from `head` onwards, wrapping at the end of the array. */
  class RingBuffer {
    const ring: array<Idx>
    var head: nat
    var count: nat
    /** The queued lines, oldest first. */
    ghost var Contents: seq<Idx>

    ghost predicate Valid()
      reads this, ring
    {
      0 < ring.Length && head < ring.Length && count <= ring.Length && |Contents| == count &&
      forall k :: 0 <= k < count ==> Contents[k] == ring[Pos(head, k, ring.Length)]
    }

    /** `RingBuffer::new`: an empty queue over `buf`. */
    constructor (buf: array<Idx>)
      requires 0 < buf.Length
      ensures Valid() && ring == buf && Contents == []
    {
      ring := buf;
      head := 0;
      count := 0;
      Contents := [];
    }

    method HasElements() returns (b: bool)
      requires Valid()
      ensures b <==> Contents != []
    {
      b := count != 0;
    }

    /** Appends `v`. The model demands room for it: what the ring buffer
        does when it is full is not part of this model. */
    method Enqueue(v: Idx)
      requires Valid() && |Contents| < ring.Length
      modifies this, ring
      ensures Valid() && Contents == old(Contents) + [v]
    {
      var L := ring.Length;
      var slot := Pos(head, count, L);
      ghost var before := ring[..];
      ring[slot] := v;
      forall k | 0 <= k < count
        ensures ring[Pos(head, k, L)] == before[Pos(head, k, L)]
      {
        WrapOnce(head + k, L);
        WrapOnce(head + count, L);
      }
      count := count + 1;
      Contents := Contents + [v];
    }

    /** Removes and returns the oldest element, or `None` when empty. */
    method Dequeue() returns (r: Option<Idx>)
      requires Valid()
      modifies this
      ensures Valid()
      ensures old(Contents) == [] ==> r == None && Contents == []
      ensures old(Contents) != [] ==> r == Some(old(Contents)[0]) && Contents == old(Contents)[1..]
    {
      if count == 0 {
        return None;
      }
      var L := ring.Length;
      PosZero(head, L);
      r := Some(ring[head]);
      ghost var h0 := head;
      head := Pos(head, 1, L);
      count := count - 1;
      Contents := Contents[1..];
      forall k | 0 <= k < count
        ensures Contents[k] == ring[Pos(head, k, L)]
      {
        assert Contents[k] == old(Contents)[k + 1];
        AdvanceHead(h0, k, L);
      }
    }
  }

  /** The chip: it owns the global interrupt queue. */
  class Sam4l {
    const queue: RingBuffer
    /** Handlers run and lines re-enabled, in order. */
    ghost var trace: seq<Action>

    ghost predicate Valid()
      reads this, queue, queue.ring
    {
      queue.Valid() && queue.ring.Length == IQ_SIZE
    }

    /** `Sam4l::new`: installs an empty queue over the 100-slot buffer. */
    constructor ()
      ensures Valid() && fresh(queue) && fresh(queue.ring) && queue.Contents == [] && trace == []
    {
      var buf := new Idx[IQ_SIZE](_ => HFLASHC);
      queue := new RingBuffer(buf);
      trace := [];
    }

    /** An interrupt handler deferring line `i` (the producer side of the
        queue, outside this file). */
    method Defer(i: Idx)
      requires Valid() && |queue.Contents| < IQ_SIZE
      modifies queue, queue.ring
      ensures Valid() && queue.Contents == old(queue.Contents) + [i]
    {
      queue.Enqueue(i);
    }

    /** Drains the queue: each line's handler runs and the line is re-enabled,
        in FIFO order, until the queue is empty. */
    method ServicePendingInterrupts()
      requires Valid()
      modifies this`trace, queue
      ensures Valid() && queue.Contents == []
      ensures trace == old(trace) + ServiceTrace(old(queue.Contents))
    {
      while true
        invariant Valid()
        invariant trace + ServiceTrace(queue.Contents) == old(trace) + ServiceTrace(old(queue.Contents))
        decreases |queue.Contents|
      {
        var next := queue.Dequeue();
        if next.None? {
          break;
        }
        var line := next.value;
        trace := trace + [Handled(Dispatch(line))];
        trace := trace + [Enabled(line)];
      }
    }

    /** Exactly when the queue holds something. */
    method HasPendingInterrupts() returns (b: bool)
      requires Valid()
      ensures b <==> queue.Contents != []
    {
      b := queue.HasElements();
    }
  }

  /** After servicing, nothing is pending. */
  method ServiceThenCheck(chip: Sam4l) returns (pending: bool)
    requires chip.Valid()
    modifies chip`trace, chip.queue
    ensures !pending
    ensures chip.trace == old(chip.trace) + ServiceTrace(old(chip.queue.Contents))
  {
    chip.ServicePendingInterrupts();
    pending := chip.HasPendingInterrupts();
  }
}
