/** The accounting of buffer memory shared by all buffered handles. */
module MemoryGuard {
  import opened Words
  import opened Wrappers

  /** Totals and per-handle maxima; a total of zero means no limit. */
  datatype Limits = Limits(readTotal: uint64, writeTotal: uint64, readMax: uint64, writeMax: uint64)

  predicate Fits(total: uint64, reserved: uint64, size: uint64) {
    total == 0 || Plus(reserved, size) <= total
  }

  class BufferAgentsMemoryLimitGuard {
    const readTotal: uint64
    const writeTotal: uint64
    var readReserved: uint64
    var writeReserved: uint64

    constructor (readTotal: uint64, writeTotal: uint64)
      ensures this.readTotal == readTotal && this.writeTotal == writeTotal && readReserved == writeReserved == 0
    {
      this.readTotal, this.writeTotal := readTotal, writeTotal;
      readReserved, writeReserved := 0, 0;
    }

    method ReserveBuffers(readSize: uint64, writeSize: uint64) returns (ok: bool)
      modifies this
      ensures forall live: nat ::
                After(Limits(readTotal, writeTotal, readSize, writeSize),
                      State(old(readReserved), old(writeReserved), live), Open)
                == State(readReserved, writeReserved, if ok then live + 1 else live)
    {
      if (readTotal == 0 || Plus(readReserved, readSize) <= readTotal)
         && (writeTotal == 0 || Plus(writeReserved, writeSize) <= writeTotal)
      {
        readReserved := Plus(readReserved, readSize);
        writeReserved := Plus(writeReserved, writeSize);
        return true;
      }
      return false;
    }

    /** The tests are on unsigned differences, so they never fail. */
    method ReleaseBuffers(readSize: uint64, writeSize: uint64) returns (ok: bool)
      modifies this
      ensures ok
      ensures forall live: nat :: live > 0 ==>
                After(Limits(readTotal, writeTotal, readSize, writeSize),
                      State(old(readReserved), old(writeReserved), live), Destroy)
                == State(readReserved, writeReserved, live - 1)
    {
      if Minus(readReserved, readSize) >= 0 && Minus(writeReserved, writeSize) >= 0 {
        readReserved := Minus(readReserved, readSize);
        writeReserved := Minus(writeReserved, writeSize);
        return true;
      }
      return false;
    }
  }

  // ------------------------------------------------------------------------
  // Opens and destructions
  // ------------------------------------------------------------------------

  /** A file is opened, buffered only if the guard agrees, or a live buffered handle is destroyed. */
  datatype Event = Open | Destroy

  datatype State = State(read: uint64, write: uint64, live: nat)

  function After(l: Limits, s: State, e: Event): State {
    match e
    case Open =>
      if Fits(l.readTotal, s.read, l.readMax) && Fits(l.writeTotal, s.write, l.writeMax)
      then State(Plus(s.read, l.readMax), Plus(s.write, l.writeMax), s.live + 1)
      else s
    case Destroy =>
      if s.live > 0 then State(Minus(s.read, l.readMax), Minus(s.write, l.writeMax), s.live - 1) else s
  }

  function AfterAll(l: Limits, events: seq<Event>): State {
    if events == [] then State(0, 0, 0)
    else After(l, AfterAll(l, events[..|events| - 1]), events[|events| - 1])
  }

  /** The counters are the live handles' maxima, modulo the word size. */
  ghost predicate Accounts(l: Limits, s: State) {
    s.read == Reserved(s.live, l.readMax) && s.write == Reserved(s.live, l.writeMax)
  }

  ghost function Reserved(live: nat, size: uint64): uint64 {
    live * size % UINT64_LIMIT
  }

  lemma {:induction false} GuardAccounts(l: Limits, events: seq<Event>)
    ensures Accounts(l, AfterAll(l, events))
  {
    if events == [] {
    } else {
      var s, e := AfterAll(l, events[..|events| - 1]), events[|events| - 1];
      GuardAccounts(l, events[..|events| - 1]);
      hide Plus, Minus, Fits, Reserved;
      OneMore(s.live, l.readMax);
      OneMore(s.live, l.writeMax);
      if s.live > 0 {
        OneLess(s.live, l.readMax);
        OneLess(s.live, l.writeMax);
      }
    }
  }

  lemma OneMore(live: nat, size: uint64)
    ensures Plus(Reserved(live, size), size) == Reserved(live + 1, size)
  {
    Distribute(live, size);
    PlusModulo(live * size, size);
  }

  lemma OneLess(live: nat, size: uint64)
    requires live > 0
    ensures Minus(Reserved(live, size), size) == Reserved(live - 1, size)
  {
    Distribute(live, size);
    MinusModulo(live * size, size);
  }

  lemma Distribute(n: nat, size: uint64)
    ensures (n + 1) * size == n * size + size
    ensures n > 0 ==> (n - 1) * size == n * size - size && size <= n * size
  {
    if n > 0 {
      assert (n - 1) * size >= 0;
    }
  }

  // ------------------------------------------------------------------------
  // When the totals hold
  // ------------------------------------------------------------------------

  /** A limited counter is exactly the live handles' maxima and within its total. */
  ghost predicate Exact(total: uint64, size: uint64, reserved: uint64, live: nat) {
    total > 0 ==> reserved == live * size <= total
  }

  ghost predicate Within(l: Limits, s: State) {
    && Exact(l.readTotal, l.readMax, s.read, s.live)
    && Exact(l.writeTotal, l.writeMax, s.write, s.live)
  }

  /** The number of handles a total has room for, if it bounds them at all. */
  function Room(total: uint64, size: uint64): Option<nat> {
    if total > 0 && size > 0 then Some(Quotient(total, size)) else None
  }

  /** The number of handles both totals have room for. */
  function Capacity(l: Limits): Option<nat> {
    match (Room(l.readTotal, l.readMax), Room(l.writeTotal, l.writeMax))
    case (Some(n), Some(m)) => Some(if n <= m then n else m)
    case (Some(n), None) => Some(n)
    case (None, m) => m
  }

  /** The total has no room for another handle after n, and the sum that shows it does not wrap. */
  predicate Stops(total: uint64, size: uint64, n: nat) {
    total > 0 && total < n * size + size < UINT64_LIMIT
  }

  /** Of the totals that are used up first, one has a sum that does not wrap around. */
  predicate Guarded(l: Limits) {
    var n := Capacity(l);
    n.Some? ==> Stops(l.readTotal, l.readMax, n.value) || Stops(l.writeTotal, l.writeMax, n.value)
  }

  ghost predicate UpTo(n: nat, room: Option<nat>) {
    room.Some? ==> n <= room.value
  }

  lemma CapacityIsLeast(l: Limits)
    ensures Capacity(l).Some? ==>
              && UpTo(Capacity(l).value, Room(l.readTotal, l.readMax))
              && UpTo(Capacity(l).value, Room(l.writeTotal, l.writeMax))
              && Capacity(l) in {Room(l.readTotal, l.readMax), Room(l.writeTotal, l.writeMax)}
    ensures Capacity(l).None? ==> Room(l.readTotal, l.readMax).None? && Room(l.writeTotal, l.writeMax).None?
  {
  }

  lemma FitsInRoom(total: uint64, size: uint64, n: nat)
    requires total > 0 && UpTo(n, Room(total, size))
    ensures n * size <= total
  {
    if size > 0 && n < Quotient(total, size) {
      ProductsInOrder(n, Quotient(total, size), size);
    }
  }

  lemma OpenExact(total: uint64, size: uint64, reserved: uint64, live: nat)
    requires Exact(total, size, reserved, live) && UpTo(live + 1, Room(total, size))
    ensures Fits(total, reserved, size) && Exact(total, size, Plus(reserved, size), live + 1)
  {
    Distribute(live, size);
    if total > 0 {
      FitsInRoom(total, size, live + 1);
    }
  }

  lemma DestroyExact(total: uint64, size: uint64, reserved: uint64, live: nat)
    requires Exact(total, size, reserved, live) && live > 0
    ensures Exact(total, size, Minus(reserved, size), live - 1)
  {
    Distribute(live, size);
  }

  lemma StopsRejects(total: uint64, size: uint64, reserved: uint64, n: nat)
    requires Stops(total, size, n) && Exact(total, size, reserved, n)
    ensures !Fits(total, reserved, size)
  {
  }

  lemma OpenWithin(l: Limits, s: State)
    requires Within(l, s) && UpTo(s.live + 1, Capacity(l))
    ensures Within(l, After(l, s, Open)) && After(l, s, Open).live == s.live + 1
  {
    CapacityIsLeast(l);
    hide Exact, Fits, Plus, Minus, Room, Capacity;
    OpenExact(l.readTotal, l.readMax, s.read, s.live);
    OpenExact(l.writeTotal, l.writeMax, s.write, s.live);
  }

  lemma StepWithin(l: Limits, s: State, e: Event)
    requires Guarded(l) && Within(l, s) && UpTo(s.live, Capacity(l))
    ensures Within(l, After(l, s, e)) && UpTo(After(l, s, e).live, Capacity(l))
  {
    hide Exact, Fits, Plus, Minus, Room, Stops, Capacity;
    if e.Destroy? && s.live > 0 {
      DestroyExact(l.readTotal, l.readMax, s.read, s.live);
      DestroyExact(l.writeTotal, l.writeMax, s.write, s.live);
    } else if e.Open? && Capacity(l) == Some(s.live) {
      if Stops(l.readTotal, l.readMax, s.live) {
        StopsRejects(l.readTotal, l.readMax, s.read, s.live);
      } else {
        StopsRejects(l.writeTotal, l.writeMax, s.write, s.live);
      }
    } else if e.Open? {
      OpenWithin(l, s);
    }
  }

  /** Over every run of a guarded configuration the counters are exact and the live handles fit. */
  lemma {:induction false} GuardIsExact(l: Limits, events: seq<Event>)
    requires Guarded(l)
    ensures Within(l, AfterAll(l, events)) && UpTo(AfterAll(l, events).live, Capacity(l))
  {
    if events == [] {
      assert AfterAll(l, events) == State(0, 0, 0);
    } else {
      GuardIsExact(l, events[..|events| - 1]);
      StepWithin(l, AfterAll(l, events[..|events| - 1]), events[|events| - 1]);
    }
  }

  function Opens(n: nat): seq<Event> {
    if n == 0 then [] else Opens(n - 1) + [Open]
  }

  lemma OpenAgain(l: Limits, n: nat)
    ensures AfterAll(l, Opens(n + 1)) == After(l, AfterAll(l, Opens(n)), Open)
  {
    assert Opens(n + 1)[..|Opens(n + 1)| - 1] == Opens(n);
  }

  lemma StartsWithin(l: Limits)
    ensures Within(l, AfterAll(l, Opens(0))) && AfterAll(l, Opens(0)).live == 0
  {
    assert AfterAll(l, Opens(0)) == State(0, 0, 0);
  }

  lemma {:induction false} OpensAccumulate(l: Limits, n: nat)
    requires UpTo(n, Capacity(l))
    ensures Within(l, AfterAll(l, Opens(n))) && AfterAll(l, Opens(n)).live == n
  {
    hide Within, Capacity, After, AfterAll, Opens;
    if n == 0 {
      StartsWithin(l);
    } else {
      OpensAccumulate(l, n - 1);
      OpenAgain(l, n - 1);
      OpenWithin(l, AfterAll(l, Opens(n - 1)));
    }
  }

  /** A full total whose sum wraps around accepts another handle. */
  lemma WrappedFits(total: uint64, size: uint64, reserved: uint64, n: nat)
    requires Exact(total, size, reserved, n) && !Stops(total, size, n)
    ensures Fits(total, reserved, size)
  {
    if total > 0 && n * size + size >= UINT64_LIMIT {
      assert Plus(reserved, size) == reserved + size - UINT64_LIMIT;
    }
  }

  lemma FullExceeds(total: uint64, size: uint64, reserved: uint64, n: nat)
    requires Room(total, size) == Some(n)
    ensures !Exact(total, size, reserved, n + 1)
  {
    Distribute(n, size);
  }

  lemma OneTooMany(l: Limits)
    requires !Guarded(l)
    ensures !Within(l, AfterAll(l, Opens(Capacity(l).value + 1)))
  {
    var n := Capacity(l).value;
    CapacityIsLeast(l);
    OpensAccumulate(l, n);
    OpenAgain(l, n);
    hide Exact, Fits, Plus, Room, Stops, Capacity, AfterAll, Opens;
    var s := AfterAll(l, Opens(n));
    WrappedFits(l.readTotal, l.readMax, s.read, n);
    WrappedFits(l.writeTotal, l.writeMax, s.write, n);
    var s' := After(l, s, Open);
    if Room(l.readTotal, l.readMax) == Some(n) {
      FullExceeds(l.readTotal, l.readMax, s'.read, n);
    } else {
      FullExceeds(l.writeTotal, l.writeMax, s'.write, n);
    }
  }

  /** Two handles of half the address space each: the second sum wraps around to nothing reserved. */
  lemma SecondHandleWraps()
    ensures var l := Limits(UINT64_LIMIT - 1, 0, 0x8000_0000_0000_0000, 0);
            !Guarded(l) && AfterAll(l, [Open, Open]) == State(0, 0, 2) && !Within(l, State(0, 0, 2))
  {
    var l := Limits(UINT64_LIMIT - 1, 0, 0x8000_0000_0000_0000, 0);
    assert Capacity(l) == Some(1);
    assert [Open, Open][..1] == [Open] && [Open][..0] == [];
    assert AfterAll(l, [Open]) == State(l.readMax, 0, 1);
  }

  /** Otherwise a run of opens gets a handle beyond a total accepted, its sum having wrapped around. */
  lemma ExactlyWhenGuarded(l: Limits)
    ensures Guarded(l) <==> forall events :: Within(l, AfterAll(l, events))
  {
    if Guarded(l) {
      forall events ensures Within(l, AfterAll(l, events)) {
        GuardIsExact(l, events);
      }
    } else {
      OneTooMany(l);
    }
  }
}
