/** The lock-free resident-byte tracker shared by every user of a Range store
    (pdf-rs/bytes/src/source.rs, lines 10-150, and its uses in store.rs, lines 455-475 and
    618-703). The class below has the source's compare-exchange loops; the state machine
    interleaves the atomic steps of any number of supplies, from the reservation of their
    response to the segment they commit. */
module Resident {
  import opened Basics
  import opened Ranges
  import opened Segments
  import opened Coalesce
  import opened StoreSpec
  import opened SupplyPrep

  const WORD: nat := U64_MAX + 1

  /** AtomicU64::fetch_sub wraps around. */
  function WrappingSub(a: nat, b: nat): nat { (a - b) % WORD }

  datatype Call = Reserve(bytes: nat) | ReserveRemaining(minimum: nat)

  /** What one trip round a reservation loop makes of the counter value it has seen. */
  function Decide(call: Call, seen: nat, max: nat): (r: Result<nat>)
    requires seen <= max <= U64_MAX
    ensures r.Ok? <==> seen + (if call.Reserve? then call.bytes else call.minimum) <= max
    ensures r.Ok? ==> seen <= r.value <= max
  {
    match call
    case Reserve(bytes) =>
      if seen + bytes > U64_MAX then Err(ResourceLimit(ResidentBytes, max, U64_MAX))
      else if seen + bytes > max then Err(ResourceLimit(ResidentBytes, max, seen + bytes))
      else Ok(seen + bytes)
    case ReserveRemaining(minimum) =>
      if max - seen < minimum then Err(ResourceLimit(ResidentBytes, max, Min(U64_MAX, seen + minimum)))
      else Ok(max)
  }

  /** What one trip round a reservation loop meets. */
  datatype Trip = Trip(value: nat, spurious: bool)

  class ResidentTracker {
    const max: nat
    var current: nat

    constructor (max: nat)
      ensures this.max == max && current == 0
    {
      this.max := max;
      current := 0;
    }

    /** try_reserve and try_reserve_remaining: the loop round compare_exchange_weak. `trips[j]`
        says what other threads have made of the counter when attempt j is made, and whether
        that attempt fails spuriously. The call is decided by the last value it saw: it adds what
        it asks for, or all that is left when it asks for the remainder, if that fits. */
    method TryReserve(call: Call, trips: seq<Trip>) returns (r: Result<nat>, ghost decidedOn: nat)
      requires current <= max <= U64_MAX && forall j :: 0 <= j < |trips| ==> trips[j].value <= max
      modifies this`current
      ensures current <= max
      ensures decidedOn == old(current) || exists j :: 0 <= j < |trips| && decidedOn == trips[j].value
      ensures var wanted := if call.Reserve? then call.bytes else call.minimum;
              if decidedOn + wanted <= max then
                r == Ok(if call.Reserve? then wanted else max - decidedOn) && current == decidedOn + r.value
              else r == Err(ResourceLimit(ResidentBytes, max, Min(U64_MAX, decidedOn + wanted))) && current == decidedOn
    {
      var seen := current;
      var j := 0;
      while true
        invariant 0 <= j <= |trips| && seen == current <= max
        invariant seen == old(current) || exists n :: 0 <= n < |trips| && seen == trips[n].value
        decreases |trips| - j
      {
        decidedOn := seen;
        var target := Decide(call, seen, max);
        if target.Err? {
          return Err(target.error), decidedOn;
        }
        if j == |trips| {
          current := target.value;
          return Ok(target.value - seen), decidedOn;
        }
        current := trips[j].value;
        if current == seen && !trips[j].spurious {
          current := target.value;
          return Ok(target.value - seen), decidedOn;
        }
        seen := current;
        j := j + 1;
      }
    }

    /** release: the fetch_sub never wraps, because the reservation is part of the counter. */
    method Release(bytes: nat)
      requires bytes <= current <= U64_MAX
      modifies this`current
      ensures current == old(current) - bytes
    {
      current := WrappingSub(current, bytes);
    }
  }

  // ------------------------------------------------------------------ interleaved supplies

  /** A reservation belongs to one thread, or to a backing that segments and readers share. */
  datatype Holder = Thread(user: nat) | Shared

  /** One reservation ever granted. */
  datatype Slot = Live(bytes: nat, holder: Holder) | Dead

  /** Where a thread stands in supply; `slot` is the reservation of the response backing,
      `claim` that of the merged backing, and segments[lo..hi] is the run it replaces. */
  datatype User =
    | Idle
    | Reserving(r: Response, seen: nat)
    | Reserved(r: Response, slot: nat)
    | Queued(r: Response, slot: nat)
    | Locked(r: Response, slot: nat)
    | Claiming(r: Response, slot: nat, lo: nat, hi: nat, seen: nat)
    | Claimed(r: Response, slot: nat, lo: nat, hi: nat, claim: nat)
    | Allocated(r: Response, slot: nat, lo: nat, hi: nat, claim: nat, merged: nat)
    | Dropped(r: Response, lo: nat, hi: nat, claim: nat, merged: nat)
    | Shrunk(r: Response, lo: nat, hi: nat, claim: nat, merged: nat)
    | Prepared(r: Response, slot: nat, lo: nat, hi: nat, capacity: nat)
    | Unwinding(held: seq<nat>)

  /** The shared counter, its reservations, the supplies under way, the lock, and the
      segments of the store with the reservation each backing owns. */
  datatype Tracker = Tracker(
    current: nat, max: nat, slots: seq<Slot>, users: seq<User>, lock: Option<nat>,
    segments: seq<Segment>, owners: seq<nat>)

  datatype Action =
    | Begin(response: Response)          // the first load of try_reserve
    | Attempt(spurious: bool)            // decide, then compare-exchange
    | AdoptResponse                      // adopt_vec of the response backing
    | Acquire                            // the lock
    | Plan(lo: nat, hi: nat)             // the affected run; the first load of try_reserve_remaining
    | Allocate(capacity: nat)            // the merged vector, as large as the allocator makes it
    | DropResponse                       // drop(response_backing)
    | ShrinkClaim                        // shrink_to
    | AdoptMerged                        // adopt_vec of the merged backing
    | Commit(union: Segment)             // the segment list is replaced
    | Abort                              // any failure, or a response that is already covered
    | Drop                               // one reservation dropped while leaving
    | Free(shared: nat)                  // the last handle of a replaced backing is dropped

  function Bytes(s: Slot): nat { if s.Live? then s.bytes else 0 }

  function BytesOf(t: Tracker, slot: nat): nat { if slot < |t.slots| then Bytes(t.slots[slot]) else 0 }

  ghost function Sum(slots: seq<Slot>, n: nat): nat
    requires n <= |slots|
  {
    if n == 0 then 0 else Sum(slots, n - 1) + Bytes(slots[n - 1])
  }

  /** Every segment's backing owns a shared reservation of its capacity, and no two the same. */
  ghost predicate Owned(segs: seq<Segment>, owners: seq<nat>, slots: seq<Slot>) {
    && |owners| == |segs|
    && (forall i :: 0 <= i < |owners| ==> owners[i] < |slots| && slots[owners[i]] == Live(segs[i].capacity, Shared))
    && (forall i, j :: 0 <= i < j < |owners| ==> owners[i] != owners[j])
  }

  predicate HasLock(u: User) {
    !u.Idle? && !u.Reserving? && !u.Reserved? && !u.Queued? && !u.Unwinding?
  }

  /** The reservations a thread holds. */
  function Held(u: User): seq<nat> {
    match u
    case Idle => []
    case Reserving(_, _) => []
    case Reserved(_, slot) => [slot]
    case Queued(_, slot) => [slot]
    case Locked(_, slot) => [slot]
    case Claiming(_, slot, _, _, _) => [slot]
    case Claimed(_, slot, _, _, claim) => [slot, claim]
    case Allocated(_, slot, _, _, claim, _) => [slot, claim]
    case Dropped(_, _, _, claim, _) => [claim]
    case Shrunk(_, _, _, claim, _) => [claim]
    case Prepared(_, slot, _, _, _) => [slot]
    case Unwinding(held) => held
  }

  ghost function UnionLen(segs: seq<Segment>, r: Response, lo: nat, hi: nat): int
    requires lo <= hi <= |segs|
  {
    UnionEnd(segs[lo..hi], r.range) - UnionStart(segs[lo..hi], r.range)
  }

  // ------------------------------------------------------------------ steps

  /** What the types of the source give a thread in this phase: a valid response, a run of
      the list, reservations that were granted. Nothing is said of their sizes. */
  ghost predicate Shaped(t: Tracker, user: nat) {
    && user < |t.users| && t.max <= U64_MAX
    && var u := t.users[user];
    && (forall n :: 0 <= n < |Held(u)| ==> Held(u)[n] < |t.slots|)
    && (u.Reserving? || u.Claiming? ==> u.seen <= t.max)
    && (!u.Idle? && !u.Unwinding? ==> u.r.Valid())
    && (HasLock(u) && !u.Locked? ==> u.lo <= u.hi <= |t.segments| == |t.owners|)
  }

  ghost function Moved(t: Tracker, user: nat, u: User): Tracker
    requires user < |t.users|
  {
    t.(users := t.users[user := u])
  }

  /** The thread gives up: the lock goes with the guard, reservations are dropped next. */
  ghost function Left(t: Tracker, user: nat, u: User): Tracker
    requires user < |t.users|
  {
    Moved(t, user, u).(lock := if HasLock(t.users[user]) then None else t.lock)
  }

  /** release of a whole reservation, and the thread's next state. */
  ghost predicate Releases(t: Tracker, user: nat, slot: nat, u: User, t': Tracker)
    requires user < |t.users|
  {
    && slot < |t.slots|
    && t' == Moved(t, user, u).(current := WrappingSub(t.current, Bytes(t.slots[slot])), slots := t.slots[slot := Dead])
  }

  ghost predicate Attempts(t: Tracker, user: nat, call: Call, seen: nat, spurious: bool, retry: User, won: User,
                           lost: User, t': Tracker)
    requires user < |t.users| && seen <= t.max <= U64_MAX
  {
    var target := Decide(call, seen, t.max);
    if target.Err? then t' == Left(t, user, lost)
    else if t.current == seen && !spurious then
      t' == Moved(t, user, won).(current := target.value, slots := t.slots + [Live(target.value - seen, Thread(user))])
    else t' == Moved(t, user, retry)
  }

  /** The length of the union, never negative in a list that is in order. */
  ghost function UnionBytes(segs: seq<Segment>, r: Response, lo: nat, hi: nat): nat
    requires lo <= hi <= |segs|
  {
    Max(0, UnionLen(segs, r, lo, hi))
  }

  ghost predicate Act(t: Tracker, user: nat, action: Action, t': Tracker)
    requires Shaped(t, user)
  {
    var u := t.users[user];
    match action
    case Begin(r) => u.Idle? && r.Valid() && t' == Moved(t, user, Reserving(r, t.current))
    case Attempt(spurious) =>
      if u.Reserving? then
        Attempts(t, user, Reserve(u.r.capacity), u.seen, spurious, Reserving(u.r, t.current), Reserved(u.r, |t.slots|), Idle,
                 t')
      else
        u.Claiming?
        && Attempts(t, user, ReserveRemaining(UnionBytes(t.segments, u.r, u.lo, u.hi)), u.seen, spurious,
                    Claiming(u.r, u.slot, u.lo, u.hi, t.current), Claimed(u.r, u.slot, u.lo, u.hi, |t.slots|),
                    Unwinding([u.slot]), t')
    case AdoptResponse =>
      && u.Reserved?
      && t' == if BytesOf(t, u.slot) == u.r.capacity then Moved(t, user, Queued(u.r, u.slot))
               else Left(t, user, Unwinding([u.slot]))
    case Acquire => u.Queued? && t.lock.None? && t' == Moved(t, user, Locked(u.r, u.slot)).(lock := Some(user))
    case Plan(lo, hi) =>
      && u.Locked? && Split(t.segments, u.r.range, lo, hi) && |t.segments| == |t.owners|
      && !Covered(t.segments, u.r.range) && !Conflicts(t.segments, u.r.range, u.r.bytes)
      && t' == Moved(t, user, if lo == hi then Prepared(u.r, u.slot, lo, hi, u.r.capacity)
                              else Claiming(u.r, u.slot, lo, hi, t.current))
    case Allocate(capacity) =>
      && u.Claimed? && capacity >= UnionLen(t.segments, u.r, u.lo, u.hi)
      && t' == if capacity > BytesOf(t, u.claim) then Left(t, user, Unwinding([u.slot, u.claim]))
               else Moved(t, user, Allocated(u.r, u.slot, u.lo, u.hi, u.claim, capacity))
    case DropResponse => u.Allocated? && Releases(t, user, u.slot, Dropped(u.r, u.lo, u.hi, u.claim, u.merged), t')
    case ShrinkClaim =>
      && u.Dropped? && u.claim < |t.slots|
      && if u.merged > BytesOf(t, u.claim) then t' == Left(t, user, Unwinding([u.claim]))
         else
           t' == Moved(t, user, Shrunk(u.r, u.lo, u.hi, u.claim, u.merged)).(
                   current := WrappingSub(t.current, BytesOf(t, u.claim) - u.merged),
                   slots := t.slots[u.claim := Live(u.merged, Thread(user))])
    case AdoptMerged =>
      && u.Shrunk?
      && t' == if BytesOf(t, u.claim) == u.merged then Moved(t, user, Prepared(u.r, u.claim, u.lo, u.hi, u.merged))
               else Left(t, user, Unwinding([u.claim]))
    case Commit(union) =>
      && u.Prepared? && u.slot < |t.slots|
      && UnionSegment(t.segments[u.lo..u.hi], u.r.range, u.r.bytes, union) && union.capacity == u.capacity
      && t' == Moved(t, user, Idle).(
                 lock := None, segments := Rebuilt(t.segments, u.lo, u.hi, union),
                 owners := t.owners[..u.lo] + [u.slot] + t.owners[u.hi..],
                 slots := t.slots[u.slot := Live(BytesOf(t, u.slot), Shared)])
    case Abort => !u.Idle? && !u.Reserving? && !u.Unwinding? && t' == Left(t, user, Unwinding(Held(u)))
    case Drop =>
      && u.Unwinding?
      && if u.held == [] then t' == Moved(t, user, Idle)
         else Releases(t, user, u.held[|u.held| - 1], Unwinding(u.held[..|u.held| - 1]), t')
    case Free(shared) =>
      && shared < |t.slots| && t.slots[shared].Live? && t.slots[shared].holder.Shared? && shared !in t.owners
      && Releases(t, user, shared, u, t')
  }

  // ------------------------------------------------------------------ invariant

  /** The thread holds this reservation, of this size. */
  ghost predicate Mine(t: Tracker, user: nat, slot: nat, bytes: nat) {
    slot < |t.slots| && t.slots[slot] == Live(bytes, Thread(user))
  }

  ghost predicate HoldsOnly(t: Tracker, user: nat, held: seq<nat>) {
    && (forall n :: 0 <= n < |held| ==>
          held[n] < |t.slots| && t.slots[held[n]].Live? && t.slots[held[n]].holder == Thread(user))
    && (forall m, n :: 0 <= m < n < |held| ==> held[m] != held[n])
  }

  /** The run a supply has planned to replace is still the affected one. */
  ghost predicate Planned(t: Tracker, r: Response, lo: nat, hi: nat) {
    r.Valid() && Split(t.segments, r.range, lo, hi) && UnionLen(t.segments, r, lo, hi) >= 0
  }

  ghost predicate UserInv(t: Tracker, user: nat) {
    && user < |t.users|
    && var u := t.users[user];
    && HoldsOnly(t, user, Held(u))
    && (HasLock(u) <==> t.lock == Some(user))
    && match u
       case Idle => true
       case Reserving(r, seen) => r.Valid() && seen <= t.max
       case Reserved(r, slot) => r.Valid() && Mine(t, user, slot, r.capacity)
       case Queued(r, slot) => r.Valid() && Mine(t, user, slot, r.capacity)
       case Locked(r, slot) => r.Valid() && Mine(t, user, slot, r.capacity)
       case Claiming(r, slot, lo, hi, seen) => Planned(t, r, lo, hi) && seen <= t.max
       case Claimed(r, slot, lo, hi, claim) => Planned(t, r, lo, hi)
       case Allocated(r, slot, lo, hi, claim, merged) =>
         Planned(t, r, lo, hi) && UnionLen(t.segments, r, lo, hi) <= merged <= BytesOf(t, claim)
       case Dropped(r, lo, hi, claim, merged) =>
         Planned(t, r, lo, hi) && UnionLen(t.segments, r, lo, hi) <= merged <= BytesOf(t, claim)
       case Shrunk(r, lo, hi, claim, merged) =>
         Planned(t, r, lo, hi) && UnionLen(t.segments, r, lo, hi) <= merged && Mine(t, user, claim, merged)
       case Prepared(r, slot, lo, hi, capacity) =>
         Planned(t, r, lo, hi) && UnionLen(t.segments, r, lo, hi) <= capacity && Mine(t, user, slot, capacity)
       case Unwinding(held) => true
  }

  ghost predicate Inv(t: Tracker) {
    && t.max <= U64_MAX
    && t.current == Sum(t.slots, |t.slots|) <= t.max
    && Sorted(t.segments) && Owned(t.segments, t.owners, t.slots)
    && (t.lock.Some? ==> t.lock.value < |t.users|)
    && forall i :: 0 <= i < |t.users| ==> UserInv(t, i)
  }

  /** The guard of every step holds in every state that satisfies the invariant. */
  lemma UserFacts(t: Tracker, user: nat)
    requires Inv(t) && user < |t.users|
    ensures Shaped(t, user) && UserInv(t, user) && t.current < WORD
  {
    assert UserInv(t, user);
    InvShapes(t, user);
  }

  lemma InvShapes(t: Tracker, user: nat)
    requires UserInv(t, user) && t.max <= U64_MAX && |t.owners| == |t.segments|
    ensures Shaped(t, user)
  {
    hide UnionLen;
    var u := t.users[user];
    var held := Held(u);
    forall n | 0 <= n < |held| ensures held[n] < |t.slots| {
    }
    match u
    case Reserving(_, _) =>
    case Claiming(_, _, _, _, _) =>
    case _ =>
  }

  lemma {:induction false} SumUpdate(slots: seq<Slot>, k: nat, s: Slot, n: nat)
    requires k < n <= |slots|
    ensures Sum(slots[k := s], n) == Sum(slots, n) - Bytes(slots[k]) + Bytes(s)
    ensures Bytes(slots[k]) <= Sum(slots, n)
  {
    if k < n - 1 {
      SumUpdate(slots, k, s, n - 1);
    } else {
      SumSame(slots[k := s], slots, k);
    }
  }

  lemma {:induction false} SumSame(a: seq<Slot>, b: seq<Slot>, n: nat)
    requires n <= |a| && n <= |b| && forall i :: 0 <= i < n ==> a[i] == b[i]
    ensures Sum(a, n) == Sum(b, n)
  {
    if n > 0 { SumSame(a, b, n - 1); }
  }

  /** A reservation is part of the counter, so releasing it never underflows. */
  lemma BytesFit(t: Tracker, slot: nat)
    requires Inv(t)
    ensures BytesOf(t, slot) <= t.current < WORD
  {
    if slot < |t.slots| { SumUpdate(t.slots, slot, Dead, |t.slots|); }
  }

  lemma NoWrap(a: nat, b: nat)
    requires b <= a < WORD
    ensures WrappingSub(a, b) == a - b
  {
  }

  // ------------------------------------------------------------------ one step

  /** Only reservations of this holder change, and new ones may come. */
  ghost predicate ChangesOnly(t: Tracker, t': Tracker, holder: Holder) {
    && |t.slots| <= |t'.slots|
    && forall n :: 0 <= n < |t.slots| && t.slots[n].Live? && t.slots[n].holder != holder ==> t'.slots[n] == t.slots[n]
  }

  /** A thread does not notice a step that leaves its reservations alone and, while it has
      the lock, the segments. */
  lemma UserKept(t: Tracker, t': Tracker, holder: Holder, user: nat)
    requires UserInv(t, user) && user < |t'.users| && t'.users[user] == t.users[user] && t'.max == t.max
    requires ChangesOnly(t, t', holder) && holder != Thread(user)
    requires t.lock == Some(user) ==> t'.lock == t.lock && t'.segments == t.segments
    requires t'.lock == Some(user) ==> t.lock == Some(user)
    ensures UserInv(t', user)
  {
    hide Split, UnionLen;
    var held := Held(t.users[user]);
    assert forall n :: 0 <= n < |held| ==> t'.slots[held[n]] == t.slots[held[n]];
    match t.users[user]
    case Allocated(_, _, _, _, claim, _) => assert held[1] == claim;
    case Dropped(_, _, _, claim, _) => assert held[0] == claim;
    case _ =>
  }

  /** The counter moves with the reservations, and shared ones stay. */
  ghost predicate Counted(t: Tracker, t': Tracker) {
    t'.current == Sum(t'.slots, |t'.slots|) <= t'.max == t.max
  }

  lemma SlotCounted(t: Tracker, slot: nat, s: Slot, t': Tracker)
    requires Inv(t) && slot < |t.slots| && Bytes(s) <= Bytes(t.slots[slot])
    requires t'.current == WrappingSub(t.current, Bytes(t.slots[slot]) - Bytes(s)) && t'.max == t.max
    requires t'.slots == t.slots[slot := s]
    ensures Counted(t, t')
  {
    BytesFit(t, slot);
    NoWrap(t.current, Bytes(t.slots[slot]) - Bytes(s));
    SumUpdate(t.slots, slot, s, |t.slots|);
  }

  /** What a step of one thread has to show. */
  lemma StepKeepsInv(t: Tracker, user: nat, u: User, t': Tracker)
    requires Inv(t) && user < |t.users| && t'.users == t.users[user := u] && Counted(t, t')
    requires Sorted(t'.segments) && Owned(t'.segments, t'.owners, t'.slots)
    requires ChangesOnly(t, t', Thread(user)) && UserInv(t', user)
    requires t'.lock == t.lock || ((t.lock.None? || t.lock == Some(user)) && (t'.lock.None? || t'.lock == Some(user)))
    requires t'.segments == t.segments || t.lock.None? || t.lock == Some(user)
    ensures Inv(t')
  {
    hide UserInv;
    forall i | 0 <= i < |t'.users| ensures UserInv(t', i) {
      if i != user { UserKept(t, t', Thread(user), i); }
    }
  }

  /** Steps that move the thread and nothing but the lock. */
  lemma MoveKeepsInv(t: Tracker, user: nat, u: User, lock: Option<nat>, t': Tracker)
    requires Inv(t) && user < |t.users| && t' == Moved(t, user, u).(lock := lock) && UserInv(t', user)
    requires lock == t.lock || ((t.lock.None? || t.lock == Some(user)) && (lock.None? || lock == Some(user)))
    ensures Inv(t')
  {
    hide UserInv;
    StepKeepsInv(t, user, u, t');
  }

  /** Steps that shrink or drop a reservation of the thread. */
  lemma SlotKeepsInv(t: Tracker, user: nat, u: User, slot: nat, s: Slot, t': Tracker)
    requires Inv(t) && user < |t.users|
    requires slot < |t.slots| && t.slots[slot].Live? && t.slots[slot].holder == Thread(user)
    requires Bytes(s) <= Bytes(t.slots[slot])
    requires t' == Moved(t, user, u).(current := WrappingSub(t.current, Bytes(t.slots[slot]) - Bytes(s)),
                                      slots := t.slots[slot := s])
    requires UserInv(t', user)
    ensures Inv(t')
  {
    hide UserInv;
    SlotCounted(t, slot, s, t');
    StepKeepsInv(t, user, u, t');
  }

  /** A won reservation is a new one of the thread. */
  lemma WonKeepsInv(t: Tracker, user: nat, u: User, bytes: nat, t': Tracker)
    requires Inv(t) && user < |t.users| && t.current + bytes <= t.max
    requires t' == Moved(t, user, u).(current := t.current + bytes, slots := t.slots + [Live(bytes, Thread(user))])
    requires UserInv(t', user)
    ensures Inv(t')
  {
    hide UserInv;
    SumSame(t'.slots, t.slots, |t.slots|);
    StepKeepsInv(t, user, u, t');
  }

  lemma AttemptKeepsInv(t: Tracker, user: nat, spurious: bool, t': Tracker)
    requires Inv(t) && Shaped(t, user) && Act(t, user, Attempt(spurious), t')
    ensures Inv(t')
  {
    hide Split, Sum, Owned, Sorted, UnionLen;
    UserFacts(t, user);
    if |t'.slots| > |t.slots| {
      WonKeepsInv(t, user, t'.users[user], t'.current - t.current, t');
    } else {
      MoveKeepsInv(t, user, t'.users[user], t'.lock, t');
    }
  }

  lemma AdoptKeepsInv(t: Tracker, user: nat, action: Action, t': Tracker)
    requires Inv(t) && Shaped(t, user) && Act(t, user, action, t')
    requires action.Begin? || action.AdoptResponse? || action.Acquire? || action.Plan? || action.AdoptMerged?
    ensures Inv(t')
  {
    hide Sum, Owned, Sorted, Covered, Conflicts;
    UserFacts(t, user);
    MoveKeepsInv(t, user, t'.users[user], t'.lock, t');
  }

  lemma AllocateKeepsInv(t: Tracker, user: nat, capacity: nat, t': Tracker)
    requires Inv(t) && Shaped(t, user) && Act(t, user, Allocate(capacity), t')
    ensures Inv(t')
  {
    hide Sum, Owned, Sorted, Split, UnionLen;
    UserFacts(t, user);
    MoveKeepsInv(t, user, t'.users[user], t'.lock, t');
  }

  lemma AbortKeepsInv(t: Tracker, user: nat, t': Tracker)
    requires Inv(t) && Shaped(t, user) && Act(t, user, Abort, t')
    ensures Inv(t')
  {
    hide Sum, Owned, Sorted, Planned;
    UserFacts(t, user);
    MoveKeepsInv(t, user, t'.users[user], t'.lock, t');
  }

  lemma ReleaseKeepsInv(t: Tracker, user: nat, action: Action, t': Tracker)
    requires Inv(t) && Shaped(t, user) && Act(t, user, action, t') && (action.DropResponse? || action.Drop?)
    ensures Inv(t')
  {
    hide Sum, Owned, Sorted, Split;
    UserFacts(t, user);
    var held := Held(t.users[user]);
    if action.DropResponse? {
      assert held[0] == t.users[user].slot && held[1] == t.users[user].claim;
      SlotKeepsInv(t, user, t'.users[user], t.users[user].slot, Dead, t');
    } else if held == [] {
      MoveKeepsInv(t, user, Idle, t.lock, t');
    } else {
      SlotKeepsInv(t, user, t'.users[user], held[|held| - 1], Dead, t');
    }
  }

  lemma ShrinkKeepsInv(t: Tracker, user: nat, t': Tracker)
    requires Inv(t) && Shaped(t, user) && Act(t, user, ShrinkClaim, t')
    ensures Inv(t')
  {
    hide Sum, Owned, Sorted, Split;
    UserFacts(t, user);
    var u := t.users[user];
    assert Held(u)[0] == u.claim;
    SlotKeepsInv(t, user, t'.users[user], u.claim, Live(u.merged, Thread(user)), t');
  }

  /** Handing a thread's reservation to the segment that replaces segs[lo..hi]. */
  lemma OwnedReplaced(segs: seq<Segment>, owners: seq<nat>, slots: seq<Slot>, lo: nat, hi: nat, u: Segment, slot: nat,
                      user: nat)
    requires Owned(segs, owners, slots) && lo <= hi <= |segs|
    requires slot < |slots| && slots[slot] == Live(u.capacity, Thread(user))
    ensures Owned(Rebuilt(segs, lo, hi, u), owners[..lo] + [slot] + owners[hi..], slots[slot := Live(u.capacity, Shared)])
  {
    var segs', owners', slots' := Rebuilt(segs, lo, hi, u), owners[..lo] + [slot] + owners[hi..],
                                  slots[slot := Live(u.capacity, Shared)];
    assert forall n :: 0 <= n < |owners| ==> owners[n] != slot && slots'[owners[n]] == Live(segs[n].capacity, Shared);
    assert |segs'| == |owners'| == lo + 1 + |segs| - hi;
    assert Rebuilt(segs, lo, hi, u) == segs[..lo] + [u] + segs[hi..];
    hide Rebuilt;
    forall n | 0 <= n < |owners'|
      ensures owners'[n] < |slots'| && slots'[owners'[n]] == Live(segs'[n].capacity, Shared)
    {
      Spliced(segs, lo, hi, u, n);
      Spliced(owners, lo, hi, slot, n);
    }
    forall m, n | 0 <= m < n < |owners'| ensures owners'[m] != owners'[n] {
      Spliced(owners, lo, hi, slot, m);
      Spliced(owners, lo, hi, slot, n);
    }
  }

  lemma Spliced<T>(s: seq<T>, lo: nat, hi: nat, x: T, n: nat)
    requires lo <= hi <= |s| && n < lo + 1 + |s| - hi
    ensures (s[..lo] + [x] + s[hi..])[n] == if n < lo then s[n] else if n == lo then x else s[n - 1 - lo + hi]
  {
  }

  /** A commit hands the prepared reservation to the union it installs. */
  lemma CommitOwned(t: Tracker, user: nat, union: Segment, t': Tracker)
    requires Inv(t) && Shaped(t, user) && Act(t, user, Commit(union), t')
    ensures Owned(t'.segments, t'.owners, t'.slots)
  {
    hide Sum, Sorted, UnionSegment, Split, UnionLen, Owned, Rebuilt;
    UserFacts(t, user);
    var u := t.users[user];
    OwnedReplaced(t.segments, t.owners, t.slots, u.lo, u.hi, union, u.slot, user);
  }

  lemma CommitKeepsInv(t: Tracker, user: nat, union: Segment, t': Tracker)
    requires Inv(t) && Shaped(t, user) && Act(t, user, Commit(union), t')
    ensures Inv(t')
    ensures t.users[user].Prepared? && t.users[user].r.Valid() && Rebuilds(t.segments, t.users[user].r, t'.segments)
  {
    CommitOwned(t, user, union, t');
    hide Sum, UnionSegment, Split, UnionLen, Owned, Rebuilds, Rebuilt;
    UserFacts(t, user);
    var u := t.users[user];
    SumUpdate(t.slots, u.slot, t'.slots[u.slot], |t.slots|);
    RebuiltFacts(t.segments, u.r, u.lo, u.hi, union);
    RebuildsSorted(t.segments, u.r, t'.segments);
    StepKeepsInv(t, user, Idle, t');
  }

  lemma FreeKeepsInv(t: Tracker, user: nat, shared: nat, t': Tracker)
    requires Inv(t) && Shaped(t, user) && Act(t, user, Free(shared), t')
    ensures Inv(t')
  {
    hide UserInv, Sorted;
    SlotCounted(t, shared, Dead, t');
    forall i | 0 <= i < |t'.users| ensures UserInv(t', i) {
      UserKept(t, t', Shared, i);
    }
  }

  /** Every atomic step of every thread keeps the counter equal to the live reservations and
      within the ceiling, and every segment's backing covered by a reservation of its own. */
  lemma ActKeepsInv(t: Tracker, user: nat, action: Action, t': Tracker)
    requires Inv(t) && Shaped(t, user) && Act(t, user, action, t')
    ensures Inv(t')
  {
    hide Act, Inv;
    match action
    case Begin(_) => AdoptKeepsInv(t, user, action, t');
    case Attempt(spurious) => AttemptKeepsInv(t, user, spurious, t');
    case AdoptResponse => AdoptKeepsInv(t, user, action, t');
    case Acquire => AdoptKeepsInv(t, user, action, t');
    case Plan(_, _) => AdoptKeepsInv(t, user, action, t');
    case Allocate(capacity) => AllocateKeepsInv(t, user, capacity, t');
    case DropResponse => ReleaseKeepsInv(t, user, action, t');
    case ShrinkClaim => ShrinkKeepsInv(t, user, t');
    case AdoptMerged => AdoptKeepsInv(t, user, action, t');
    case Commit(union) => CommitKeepsInv(t, user, union, t');
    case Abort => AbortKeepsInv(t, user, t');
    case Drop => ReleaseKeepsInv(t, user, action, t');
    case Free(shared) => FreeKeepsInv(t, user, shared, t');
  }

  // ------------------------------------------------------------------ no internal error

  /** The internal errors of the tracker and its callers cannot happen: both adoptions meet
      a reservation of exactly their capacity, the claim is large enough to shrink, and the
      remainder of the ceiling can be computed. */
  lemma NoInternalErrors(t: Tracker, user: nat)
    requires Inv(t) && user < |t.users|
    ensures var u := t.users[user];
            && (u.Reserved? ==> BytesOf(t, u.slot) == u.r.capacity)
            && (u.Claiming? ==> u.seen <= t.max)
            && (u.Claimed? ==> BytesOf(t, u.claim) <= t.max)
            && (u.Dropped? ==> u.merged <= BytesOf(t, u.claim))
            && (u.Shrunk? ==> BytesOf(t, u.claim) == u.merged)
  {
    UserFacts(t, user);
    var u := t.users[user];
    if u.Claimed? { BytesFit(t, u.claim); }
  }

  /** A prepared supply can always commit. */
  lemma CommitEnabled(t: Tracker, user: nat) returns (union: Segment, t': Tracker)
    requires Inv(t) && user < |t.users| && t.users[user].Prepared?
    ensures Shaped(t, user) && Act(t, user, Commit(union), t')
  {
    UserFacts(t, user);
    var u := t.users[user];
    RunSorted(t.segments, u.lo, u.hi);
    var exact := UnionExists(t.segments[u.lo..u.hi], u.r.range, u.r.bytes);
    union := exact.(capacity := u.capacity);
    t' := Moved(t, user, Idle).(lock := None, segments := Rebuilt(t.segments, u.lo, u.hi, union),
                                owners := t.owners[..u.lo] + [u.slot] + t.owners[u.hi..],
                                slots := t.slots[u.slot := Live(BytesOf(t, u.slot), Shared)]);
  }

  // ------------------------------------------------------------------ whole runs

  ghost predicate Takes(t: Tracker, user: nat, action: Action, t': Tracker) {
    Shaped(t, user) && Act(t, user, action, t')
  }

  ghost predicate Steps(t: Tracker, t': Tracker) {
    exists user: nat, action :: Takes(t, user, action, t')
  }

  ghost predicate ActAt(run: seq<Tracker>, i: nat)
    requires i + 1 < |run|
  {
    Steps(run[i], run[i + 1])
  }

  ghost predicate Initial(t: Tracker) {
    && t.max <= U64_MAX && t.current == 0 && t.slots == [] && t.segments == [] && t.owners == [] && t.lock.None?
    && forall i :: 0 <= i < |t.users| ==> t.users[i].Idle?
  }

  ghost predicate Run(run: seq<Tracker>) {
    |run| > 0 && Initial(run[0]) && forall i :: 0 <= i < |run| - 1 ==> ActAt(run, i)
  }

  lemma InitialInv(t: Tracker)
    requires Initial(t)
    ensures Inv(t)
  {
  }

  /** In every interleaving the counter equals the live reservations, never exceeds the
      ceiling, and covers every cached byte of the store. */
  lemma {:induction false} RunKeepsInv(run: seq<Tracker>, i: nat)
    requires Run(run) && i < |run|
    ensures Inv(run[i])
    ensures Total(run[i].segments) <= TotalCapacity(run[i].segments) <= run[i].current <= run[i].max
  {
    hide Inv, Steps, Total, TotalCapacity;
    if i == 0 {
      InitialInv(run[0]);
    } else {
      RunKeepsInv(run, i - 1);
      assert ActAt(run, i - 1);
      StepsKeepInv(run[i - 1], run[i]);
    }
    ResidentCoversCached(run[i]);
  }

  lemma StepsKeepInv(t: Tracker, t': Tracker)
    requires Inv(t) && Steps(t, t')
    ensures Inv(t')
  {
    hide Act, Inv;
    var user: nat, action :| Takes(t, user, action, t');
    ActKeepsInv(t, user, action, t');
  }

  lemma ResidentCoversCached(t: Tracker)
    requires Inv(t)
    ensures Total(t.segments) <= TotalCapacity(t.segments) <= t.current <= t.max
  {
    TotalWithinCapacity(t.segments, |t.segments|);
    CapacityWithinSum(t.segments, t.owners, t.slots, |t.segments|);
  }

  lemma {:induction false} TotalWithinCapacity(segs: seq<Segment>, n: nat)
    requires n <= |segs|
    ensures TotalTo(segs, n) <= CapacityTo(segs, n)
  {
    if n > 0 { TotalWithinCapacity(segs, n - 1); }
  }

  /** Distinct owners: taking one segment and its reservation away at a time. */
  lemma {:induction false} CapacityWithinSum(segs: seq<Segment>, owners: seq<nat>, slots: seq<Slot>, n: nat)
    requires n <= |segs| == |owners|
    requires forall i :: 0 <= i < n ==> owners[i] < |slots| && slots[owners[i]] == Live(segs[i].capacity, Shared)
    requires forall i, j :: 0 <= i < j < n ==> owners[i] != owners[j]
    ensures CapacityTo(segs, n) <= Sum(slots, |slots|)
    decreases n
  {
    if n > 0 {
      var k := owners[n - 1];
      SumUpdate(slots, k, Dead, |slots|);
      CapacityWithinSum(segs, owners, slots[k := Dead], n - 1);
    }
  }

  /** Between its claim and the return of the surplus a supply keeps this reservation. */
  ghost predicate Keeps(u: User, claim: nat) {
    (u.Claimed? || u.Allocated? || u.Dropped?) && u.claim == claim
  }

  lemma ClaimKept(t: Tracker, t': Tracker, user: nat, claim: nat)
    requires Inv(t) && Steps(t, t') && user < |t.users| == |t'.users| && Keeps(t.users[user], claim) && Keeps(t'.users[user], claim)
    ensures claim < |t.slots| <= |t'.slots| && t'.slots[claim] == t.slots[claim]
  {
    hide Act, UserInv, Inv;
    ClaimHeld(t, user, claim);
    var other: nat, action :| Takes(t, other, action, t');
    if other == user { OwnClaimKept(t, user, action, t', claim); } else { ForeignClaimKept(t, other, action, t', user, claim); }
  }

  lemma OwnClaimKept(t: Tracker, user: nat, action: Action, t': Tracker, claim: nat)
    requires Inv(t) && Shaped(t, user) && Act(t, user, action, t') && claim < |t.slots|
    requires t.slots[claim].Live? && t.slots[claim].holder == Thread(user)
    requires user < |t'.users| && Keeps(t.users[user], claim) && Keeps(t'.users[user], claim)
    ensures |t.slots| <= |t'.slots| && t'.slots[claim] == t.slots[claim]
  {
    hide Split, UnionLen, UnionSegment, Covered, Conflicts, Sum, Sorted, Owned;
    UserFacts(t, user);
    if action.DropResponse? { assert Held(t.users[user])[0] != Held(t.users[user])[1]; }
  }

  lemma ForeignClaimKept(t: Tracker, other: nat, action: Action, t': Tracker, user: nat, claim: nat)
    requires Inv(t) && Shaped(t, other) && Act(t, other, action, t') && claim < |t.slots| && other != user
    requires t.slots[claim].Live? && t.slots[claim].holder == Thread(user)
    ensures |t.slots| <= |t'.slots| && t'.slots[claim] == t.slots[claim]
  {
    hide Split, UnionLen, UnionSegment, Covered, Conflicts, Sum, Sorted, Owned;
    UserFacts(t, other);
    var held := Held(t.users[other]);
    assert forall n :: 0 <= n < |held| ==> held[n] != claim;
    match t.users[other]
    case Allocated(_, slot, _, _, _, _) => assert held[0] == slot;
    case Dropped(_, _, _, c, _) => assert held[0] == c;
    case _ =>
  }

  lemma {:induction false} ClaimKeptOver(run: seq<Tracker>, i: nat, j: nat, user: nat, claim: nat)
    requires Run(run) && i <= j < |run|
    requires forall k :: i <= k <= j ==> user < |run[k].users| == |run[i].users| && Keeps(run[k].users[user], claim)
    ensures claim < |run[i].slots| <= |run[j].slots| && run[j].slots[claim] == run[i].slots[claim]
    decreases j
  {
    hide Steps, Inv, UserInv;
    if i < j {
      ClaimKeptOver(run, i, j - 1, user, claim);
      RunKeepsInv(run, j - 1);
      assert ActAt(run, j - 1) && Keeps(run[j - 1].users[user], claim) && Keeps(run[j].users[user], claim);
      ClaimKept(run[j - 1], run[j], user, claim);
    } else {
      RunKeepsInv(run, i);
      ClaimHeld(run[i], user, claim);
    }
  }

  lemma ClaimHeld(t: Tracker, user: nat, claim: nat)
    requires Inv(t) && user < |t.users| && Keeps(t.users[user], claim)
    ensures claim < |t.slots| && t.slots[claim].Live? && t.slots[claim].holder == Thread(user)
  {
    UserFacts(t, user);
    var n := if t.users[user].Dropped? then 0 else 1;
    assert Held(t.users[user])[n] == claim;
  }

  /** A supply that claims everything that is left (step i) and later shrinks its claim to
      the capacity of its vector (step j) returns exactly the surplus over that capacity,
      whatever other threads did in between. */
  lemma ClaimThenShrink(run: seq<Tracker>, i: nat, j: nat, user: nat, claim: nat, spurious: bool)
    requires Run(run) && i < j < |run| - 1 && user < |run[i].users| && user < |run[j].users|
    requires run[i].users[user].Claiming? && Takes(run[i], user, Attempt(spurious), run[i + 1])
    requires forall k :: i < k <= j ==> user < |run[k].users| == |run[i + 1].users| && Keeps(run[k].users[user], claim)
    requires Takes(run[j], user, ShrinkClaim, run[j + 1])
    ensures run[i + 1].current == run[i].max
    ensures run[j].current - run[j + 1].current == (run[i].max - run[i].current) - run[j].users[user].merged
  {
    hide Split, UnionLen, Sum, Sorted;
    RunKeepsInv(run, i);
    RunKeepsInv(run, j);
    ClaimKeptOver(run, i + 1, j, user, claim);
    BytesFit(run[j], claim);
    UserFacts(run[j], user);
    NoWrap(run[j].current, BytesOf(run[j], claim) - run[j].users[user].merged);
  }
}
