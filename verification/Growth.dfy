/** Amortized growth of the planner's vectors (pdf-rs/content/src/vm.rs, lines 1684-1701
    and 7031-7123). The allocator may fail, and may return any capacity at least as large
    as the one requested. */
module Growth {
  import opened Basics

  /** Vectors never hold more than isize::MAX bytes, so capacities can be doubled. */
  const ISIZE_MAX: nat := 0x7FFF_FFFF_FFFF_FFFF
  const USIZE_MAX: nat := U64_MAX

  datatype VmLimits = VmLimits(maxRetained: nat, maxFuel: nat)

  datatype SlotError = RetainedBytes | Fuel | Allocation

  /** geometric_capacity: at least what is required, and at least double unless nothing is
      required; no more than the greater of the two, or four to begin with. */
  function GeometricCapacity(current: nat, required: nat): (target: nat)
    ensures target >= required && target >= current
    ensures required > current && current > 0 && 2 * current <= USIZE_MAX ==> target >= 2 * current
    ensures required <= current ==> target == current
    ensures required > current ==> target <= Max(4, Max(2 * current, required)) && (current == 0 ==> target >= 4)
  {
    if required <= current then current
    else Max(if current == 0 then 4 else if 2 * current <= USIZE_MAX then 2 * current else required, required)
  }

  /** A growable vector of elements `width` bytes wide, with the accounting of its plan. */
  class SlotVector<T> {
    const width: nat
    const limits: VmLimits
    var values: seq<T>
    var capacity: nat
    var fuel: nat
    var peakRetained: nat

    constructor (width: nat, limits: VmLimits, fuel: nat)
      requires 0 < width && fuel <= limits.maxFuel
      ensures Valid() && values == [] && capacity == 0 && this.width == width && this.limits == limits
      ensures this.fuel == fuel
    {
      this.width, this.limits, this.fuel := width, limits, fuel;
      values, capacity, peakRetained := [], 0, 0;
    }

    ghost predicate Valid()
      reads this
    {
      0 < width && |values| <= capacity && capacity * width <= ISIZE_MAX && fuel <= limits.maxFuel
    }

    /** Accounting::charge_fuel. */
    method ChargeFuel(amount: nat) returns (ok: bool)
      requires fuel <= limits.maxFuel
      modifies this`fuel
      ensures fuel <= limits.maxFuel && fuel == if ok then old(fuel) + amount else old(fuel)
      ensures ok <==> old(fuel) + amount <= limits.maxFuel
    {
      ok := fuel + amount <= limits.maxFuel;
      if ok {
        fuel := fuel + amount;
      }
    }

    /** reserve_vm_slot. `granted` is the capacity the allocator comes up with, if it does.
        A full vector pays one unit of fuel for every element it moves, and gets at least
        the doubled capacity for it; a vector with room pays nothing. */
    method ReserveSlot(programBytes: nat, otherBytes: nat, granted: Option<nat>) returns (r: Option<SlotError>)
      requires Valid()
      requires granted.Some? ==>
                 granted.value >= GeometricCapacity(capacity, |values| + 1) && granted.value * width <= ISIZE_MAX
      modifies this`capacity, this`fuel, this`peakRetained
      ensures Valid()
      ensures r.None? ==>
                && |values| < capacity && Reserves(|values|, old(capacity), capacity, fuel - old(fuel))
                && programBytes + otherBytes + capacity * width <= limits.maxRetained
                && peakRetained == Max(old(peakRetained), programBytes + otherBytes + capacity * width)
      ensures r == Some(Fuel) ==>
                && capacity == old(capacity) == |values| && fuel == old(fuel)
                && fuel + |values| > limits.maxFuel
      ensures r == Some(SlotError.Allocation) ==>
                capacity == old(capacity) == |values| && granted.None? && fuel == old(fuel) + |values|
      ensures r == Some(RetainedBytes) ==>
                && ((capacity == old(capacity) && fuel == old(fuel))
                    || Reserves(|values|, old(capacity), capacity, fuel - old(fuel)))
                && programBytes + otherBytes
                   + Max(capacity, if |values| == capacity then GeometricCapacity(capacity, |values| + 1) else 0) * width
                   > limits.maxRetained
      ensures r.Some? ==> peakRetained == old(peakRetained) && old(fuel) <= fuel <= old(fuel) + |values|
    {
      if |values| == capacity {
        var target := GeometricCapacity(capacity, |values| + 1);
        Doubles(capacity, width);
        var consumed := programBytes + otherBytes + capacity * width;
        if consumed + (target * width - capacity * width) > limits.maxRetained {
          return Some(RetainedBytes);
        }
        var charged := ChargeFuel(|values|);
        if !charged {
          return Some(Fuel);
        }
        if granted.None? {
          return Some(SlotError.Allocation);
        }
        capacity := granted.value;
      }
      var total := programBytes + otherBytes + capacity * width;
      if total > limits.maxRetained {
        return Some(RetainedBytes);
      }
      peakRetained := Max(peakRetained, total);
      return None;
    }

    /** The push behind a reservation. */
    method Push(value: T)
      requires Valid() && |values| < capacity
      modifies this`values
      ensures Valid() && values == old(values) + [value]
    {
      values := values + [value];
    }
  }

  lemma Doubles(capacity: nat, width: nat)
    requires 0 < width && capacity * width <= ISIZE_MAX
    ensures 2 * capacity <= USIZE_MAX
  {
    assert capacity * width >= capacity * 1;
  }

  /** Any number of reservations, each followed by a push: the pushed values are all there,
      every success stays within the retained-byte limit, and the fuel charged is at most
      two units per push; a growth the allocator refuses has been charged on top. */
  method PushAll<T>(items: seq<T>, width: nat, limits: VmLimits, fuel: nat, programBytes: nat, others: seq<nat>,
                    allocator: (nat, nat) -> Option<nat>)
    returns (v: SlotVector<T>, error: Option<SlotError>)
    requires 0 < width && fuel <= limits.maxFuel && |others| == |items|
    requires forall i, target :: allocator(i, target).Some? ==>
               allocator(i, target).value >= target && allocator(i, target).value * width <= ISIZE_MAX
    ensures fresh(v) && v.Valid() && v.values <= items && (error.None? ==> v.values == items)
    ensures error.None? ==> fuel <= v.fuel <= fuel + 2 * |items|
    ensures error.Some? ==> fuel <= v.fuel <= fuel + 3 * |v.values|
    ensures error == Some(Fuel) ==> limits.maxFuel < fuel + 3 * |v.values|
  {
    v := new SlotVector(width, limits, fuel);
    ghost var run := [Slots(0, 0, 0)];
    for i := 0 to |items|
      invariant fresh(v) && v.Valid() && v.width == width && v.limits == limits && v.values == items[..i]
      invariant fuel <= v.fuel && PushRun(run) && |run| == i + 1 && run[i] == Slots(i, v.capacity, v.fuel - fuel)
    {
      hide PushRun, GeometricCapacity;
      RelocationIsLinear(run, i);
      Doubles(v.capacity, width);
      error := v.ReserveSlot(programBytes, others[i], allocator(i, GeometricCapacity(v.capacity, |v.values| + 1)));
      if error.Some? {
        return;
      }
      v.Push(items[i]);
      RunOn(run, Slots(i + 1, v.capacity, v.fuel - fuel));
      run := run + [Slots(i + 1, v.capacity, v.fuel - fuel)];
    }
    RelocationIsLinear(run, |items|);
    error := None;
  }

  // ------------------------------------------------------------------ runs of pushes

  /** Length, capacity and relocation fuel of a vector. */
  datatype Slots = Slots(len: nat, capacity: nat, relocated: nat)

  /** A reservation takes `len` elements from one capacity to another at this much fuel. */
  ghost predicate Reserves(len: nat, capacity: nat, capacity': nat, charged: int) {
    if len < capacity then capacity' == capacity && charged == 0
    else capacity' >= GeometricCapacity(capacity, len + 1) && charged == len
  }

  /** One reservation with its push. */
  ghost predicate Pushes(s: Slots, s': Slots) {
    s'.len == s.len + 1 && Reserves(s.len, s.capacity, s'.capacity, s'.relocated - s.relocated)
  }

  ghost predicate Grows(s: Slots, s': Slots) {
    s.len <= s.capacity && 2 * s.capacity <= USIZE_MAX && Pushes(s, s')
  }

  ghost predicate PushAt(run: seq<Slots>, i: nat)
    requires i + 1 < |run|
  {
    Grows(run[i], run[i + 1])
  }

  /** A vector pushed to from empty. */
  ghost predicate PushRun(run: seq<Slots>) {
    |run| > 0 && run[0] == Slots(0, 0, 0) && forall i :: 0 <= i < |run| - 1 ==> PushAt(run, i)
  }

  lemma RunOn(run: seq<Slots>, next: Slots)
    requires PushRun(run) && Grows(run[|run| - 1], next)
    ensures PushRun(run + [next])
  {
    var longer := run + [next];
    forall i | 0 <= i < |longer| - 1 ensures PushAt(longer, i) {
      if i < |run| - 1 { assert PushAt(run, i); }
    }
  }

  /** For any allocator and any number of pushes from empty, relocation costs at most twice
      the number of pushes, and never more than the capacity bought. */
  lemma {:induction false} RelocationIsLinear(run: seq<Slots>, n: nat)
    requires PushRun(run) && n < |run|
    ensures run[n].len == n && run[n].relocated <= 2 * n && run[n].relocated <= run[n].capacity
  {
    if n > 0 {
      RelocationIsLinear(run, n - 1);
      assert PushAt(run, n - 1);
    }
  }
}
