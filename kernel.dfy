/** Vocabulary shared by the capsules: optional values, process identities,
    callbacks and the upcalls they schedule, the kernel's status codes, the
    GPIO mode enumerations of the hardware interface layer, per-process grant
    regions, and the machine-word conversions the Rust code performs. */
module Kernel {

  datatype Option<T> = None | Some(value: T)

  /** A process, identified by its slot in the kernel's process table. */
  type AppId = nat

  /** A callback registered through `subscribe`: the process it belongs to and
      the data word handed back with every upcall. */
  datatype Callback = Callback(appId: AppId, appdata: nat)

  /** One upcall scheduled on a callback, carrying three argument words. The
      boolean `schedule` returns is ignored by every caller and not modelled. */
  datatype Upcall = Upcall(cb: Callback, r0: nat, r1: nat, r2: nat)

  /** A reference to an upper-layer client object (for example a
      gpio_async::Client); only its presence matters to the drivers. */
  datatype ClientRef = ClientRef(id: nat)

  /** Size of the `usize` machine word on the 32-bit Cortex-M targets. */
  const WORD: nat := 0x1_0000_0000

  /** `v as usize` on a 32-bit target: a two's-complement wrap of a signed value. */
  function AsUsize(v: int): (r: nat)
    ensures r < WORD
    ensures 0 <= v < WORD ==> r == v
    ensures -(WORD as int) <= v < 0 ==> r as int == WORD as int + v
  {
    v % WORD
  }

  /** How a process reads back a word that carries a signed value. */
  function AsIsize(r: nat): (v: int)
    requires r < WORD
    ensures -(WORD as int) / 2 <= v < WORD as int / 2
  {
    if r < WORD / 2 then r else r - WORD
  }

  /** A signed value that fits in a machine word survives the trip through an
      upcall argument. */
  lemma SignedWordRoundTrip(v: int)
    requires -(WORD as int) / 2 <= v < WORD as int / 2
    ensures AsIsize(AsUsize(v)) == v
  {
  }

  /** `n as u8`: truncation to the low byte. */
  function AsU8(n: nat): bv8
  {
    (n % 256) as bv8
  }

  /** The kernel's status codes, in declaration order. */
  datatype ReturnCode =
    | SUCCESS | FAIL | EBUSY | EALREADY | EOFF | ERESERVE
    | EINVAL | ESIZE | ECANCEL | ENOMEM | ENOSUPPORT

  /** `rc as isize`: the position of the variant in the enumeration. */
  function Discriminant(rc: ReturnCode): (d: nat)
    ensures d == 0 <==> rc == SUCCESS
  {
    match rc
    case SUCCESS => 0
    case FAIL => 1
    case EBUSY => 2
    case EALREADY => 3
    case EOFF => 4
    case ERESERVE => 5
    case EINVAL => 6
    case ESIZE => 7
    case ECANCEL => 8
    case ENOMEM => 9
    case ENOSUPPORT => 10
  }

  /** hil::gpio::InputMode */
  datatype InputMode = PullUp | PullDown | PullNone

  /** hil::gpio::InterruptMode; `mode as u8` is 0, 1, 2 in this order. */
  datatype InterruptMode = RisingEdge | FallingEdge | EitherEdge

  /** A grant region (`Container<A>`): one optional record per process slot, in
      process-table order. `None` means no record has been allocated yet. */
  type Grant<A> = seq<Option<A>>

  /** `Container::enter` succeeds exactly for processes that exist. */
  predicate CanEnter<A>(apps: Grant<A>, id: AppId)
  {
    id < |apps|
  }

  /** The record `enter` hands to its closure: the allocated one, or a fresh
      default record when none was allocated yet. */
  function Entered<A>(apps: Grant<A>, id: AppId, default: A): (a: A)
    requires CanEnter(apps, id)
    ensures apps[id].Some? ==> a == apps[id].value
    ensures apps[id].None? ==> a == default
  {
    if apps[id].Some? then apps[id].value else default
  }
}
