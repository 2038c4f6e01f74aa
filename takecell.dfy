/** The exclusive take cell: a slot holding zero or one value whose only
    mutation paths hand the value out and take it back. Every TakeCell and
    InstrumentedTakeCell of the drivers is an instance of this class.

    A Rust closure `FnOnce(&mut T) -> R` is modelled as a function from the
    value to the (possibly mutated) value and the closure's result. */
module TakeCells {
  import opened Kernel

  /** Pin level written to the PA16 debug pin: true for `set`, false for `clear`. */
  type Level = bool

  /** The pin edges `instrumented_map` drives onto PA16, in order. */
  function InstrumentedEdges(full: bool): (e: seq<Level>)
    ensures |e| == if full then 10 else 4
    ensures e[0] == false && e[|e| - 1] == true
  {
    // clear before take, set/clear after it, then (when a value is present)
    // set/clear before the closure, after it and after replace, finally set
    [false, true, false]
    + (if full then [true, false, true, false, true, false] else [])
    + [true]
  }

  class InstrumentedTakeCell<T> {
    var val: Option<T>
    /** Levels driven onto the PA16 debug pin by `instrumented_map`. */
    ghost var debugPin: seq<Level>

    constructor Empty()
      ensures val == None && debugPin == []
    {
      val := None;
      debugPin := [];
    }

    constructor New(value: T)
      ensures val == Some(value) && debugPin == []
    {
      val := Some(value);
      debugPin := [];
    }

    method IsNone() returns (b: bool)
      ensures b <==> val == None
    {
      b := val.None?;
    }

    method IsSome() returns (b: bool)
      ensures b <==> val != None
    {
      b := val.Some?;
    }

    /** Moves the value out, leaving the cell empty. */
    method Take() returns (r: Option<T>)
      modifies this`val
      ensures r == old(val) && val == None
    {
      r := val;
      val := None;
    }

    /** Installs `v` (which may be `None`), dropping the previous contents. */
    method Put(v: Option<T>)
      modifies this`val
      ensures val == v
    {
      var _ := Take();
      val := v;
    }

    /** Installs `Some(v)` and hands back the previous contents. */
    method Replace(v: T) returns (prev: Option<T>)
      modifies this`val
      ensures prev == old(val) && val == Some(v)
    {
      prev := Take();
      val := Some(v);
    }

    /** Runs `closure` on the value, if there is one, and reinstalls the
        updated value; on an empty cell the closure does not run. */
    method Map<R>(closure: T -> (T, R)) returns (r: Option<R>)
      modifies this`val
      ensures old(val) == None ==> r == None && val == None
      ensures old(val) != None ==>
        r == Some(closure(old(val).value).1) && val == Some(closure(old(val).value).0)
    {
      var maybe := Take();
      if maybe.Some? {
        var (v, res) := closure(maybe.value);
        var _ := Replace(v);
        r := Some(res);
      } else {
        r := None;
      }
    }

    /** `map` with the PA16 debug-pin edges around each step. */
    method InstrumentedMap<R>(closure: T -> (T, R)) returns (r: Option<R>)
      modifies this`val, this`debugPin
      ensures old(val) == None ==> r == None && val == None
      ensures old(val) != None ==>
        r == Some(closure(old(val).value).1) && val == Some(closure(old(val).value).0)
      ensures debugPin == old(debugPin) + InstrumentedEdges(old(val) != None)
    {
      debugPin := debugPin + [false];
      var maybe := Take();
      debugPin := debugPin + [true, false];
      if maybe.Some? {
        debugPin := debugPin + [true, false];
        var (v, res) := closure(maybe.value);
        debugPin := debugPin + [true, false];
        var _ := Replace(v);
        debugPin := debugPin + [true, false];
        r := Some(res);
      } else {
        r := None;
      }
      debugPin := debugPin + [true];
    }

    /** Like `map`, but returns `default` when the cell is empty. */
    method MapOr<R>(default: R, closure: T -> (T, R)) returns (r: R)
      modifies this`val
      ensures old(val) == None ==> r == default && val == None
      ensures old(val) != None ==>
        r == closure(old(val).value).1 && val == Some(closure(old(val).value).0)
    {
      var maybe := Take();
      if maybe.Some? {
        var (v, res) := closure(maybe.value);
        var _ := Replace(v);
        r := res;
      } else {
        r := default;
      }
    }

    /** Applies `change` (the source's `modify`) to the value if there is one, otherwise installs
        `mkval()`; either way the cell ends up full. */
    method ModifyOrReplace(change: T -> T, mkval: () -> T)
      modifies this`val
      ensures val != None
      ensures old(val) != None ==> val == Some(change(old(val).value))
      ensures old(val) == None ==> val == Some(mkval())
    {
      var taken := Take();
      var v := if taken.Some? then change(taken.value) else mkval();
      var _ := Replace(v);
    }
  }

  /** Two handles on one cell: after the first `take`, the second finds it empty. */
  method TakeTwice<T>(cell: InstrumentedTakeCell<T>) returns (first: Option<T>, second: Option<T>)
    modifies cell`val
    ensures first == old(cell.val) && second == None && cell.val == None
  {
    first := cell.Take();
    second := cell.Take();
  }

  /** Mutating through `map` is visible to a later `take`. */
  method MapThenTake(cell: InstrumentedTakeCell<int>) returns (r: Option<int>)
    modifies cell`val
    ensures old(cell.val) == None ==> r == None
    ensures old(cell.val) != None ==> r == Some(old(cell.val).value + 1)
  {
    var _ := cell.Map((v: int) => (v + 1, ()));
    r := cell.Take();
  }
}
