/**
 * The read cache: at most two blocks of the underlying file, the one being read
 * and the one prefetched after it. Fetches complete at any time.
 */
module ReadCaching {
  import opened Wrappers
  import opened FlatFile

  datatype Status = Pending | Ready(data: Bytes) | Broken(errno: nat)

  /**
   * A block in or on its way into the cache. `size` is the requested size until
   * the data arrives; `torn` says that the underlying file was being written at
   * some time while the fetch was under way, so that its data may be anything.
   */
  datatype Entry = Entry(offset: nat, requested: nat, size: nat, status: Status, torn: bool) {
    predicate Reaches(at: nat) {
      offset <= at < offset + size
    }
  }

  datatype Limits = Limits(minSize: nat, maxSize: nat, powerBase: real) {
    predicate Valid() {
      minSize <= maxSize && powerBase >= 1.0
    }
  }

  /** entries are all blocks ever requested, cache the numbers of those in the cache. */
  datatype CacheState = CacheState(
    entries: seq<Entry>, cache: seq<nat>, clear: bool, blockSize: nat, coeff: real)
  {
    predicate InBounds() {
      forall i :: 0 <= i < |cache| ==> cache[i] < |entries|
    }
  }

  const EMPTY := CacheState([], [], false, 0, 1.0)

  // ------------------------------------------------------------------------
  // Operations
  // ------------------------------------------------------------------------

  predicate IsCurrentRead(c: CacheState, offset: nat)
    requires c.InBounds()
  {
    c.cache != [] && c.entries[c.cache[0]].Reaches(offset)
  }

  predicate IsSequential(c: CacheState, offset: nat)
    requires c.InBounds()
  {
    if c.cache == [] then false
    else
      var back := c.entries[c.cache[|c.cache| - 1]];
      if |c.cache| == 1 then offset == back.offset + back.size else back.Reaches(offset)
  }

  function ResetBlockSize(): (nat, real) {
    (0, 1.0)
  }

  /** `slow`: the measured latency is above the target. */
  function IncreaseBlockSize(limits: Limits, blockSize: nat, coeff: real, slow: bool): (nat, real)
    requires coeff >= 0.0
  {
    if blockSize < limits.maxSize && slow
    then (Min(limits.maxSize, limits.minSize * coeff.Floor), coeff * limits.powerBase)
    else (blockSize, coeff)
  }

  function ApplyClear(c: CacheState): CacheState {
    if c.clear then c.(cache := [], clear := false) else c
  }

  /** The first n cached blocks have expired; only blocks whose data arrived ever do. */
  predicate MayExpire(c: CacheState, n: nat) {
    n <= |c.cache| && c.InBounds() && forall i :: 0 <= i < n ==> c.entries[c.cache[i]].status.Ready?
  }

  function DropStale(c: CacheState, n: nat): CacheState
    requires MayExpire(c, n)
  {
    c.(cache := c.cache[n..])
  }

  /** The position, from k on, of the first cached block that holds the offset. */
  function FirstReaching(c: CacheState, offset: nat, k: nat): (n: nat)
    requires c.InBounds() && k <= |c.cache|
    ensures k <= n <= |c.cache|
    ensures n < |c.cache| ==> c.entries[c.cache[n]].Reaches(offset)
    ensures forall j :: k <= j < n ==> !c.entries[c.cache[j]].Reaches(offset)
    decreases |c.cache| - k
  {
    if k == |c.cache| || c.entries[c.cache[k]].Reaches(offset) then k else FirstReaching(c, offset, k + 1)
  }

  function PopTo(c: CacheState, offset: nat): CacheState
    requires c.InBounds()
  {
    c.(cache := c.cache[FirstReaching(c, offset, 0)..])
  }

  function Fetch(c: CacheState, offset: nat, size: nat, busy: bool): CacheState {
    c.(entries := c.entries + [Entry(offset, size, size, Pending, busy)], cache := c.cache + [|c.entries|])
  }

  /** The block after the cached ones, as far as the continuous range goes. */
  function PrefetchSize(next: nat, blockSize: nat, offset: nat, continuous: nat): nat {
    var lower, upper := Max(next, offset), Min(next + blockSize, offset + continuous);
    if lower < upper then upper - lower else 0
  }

  function Prefetch(c: CacheState, offset: nat, continuous: nat, busy: bool): CacheState
    requires c.InBounds() && c.cache != []
  {
    var back := c.entries[c.cache[|c.cache| - 1]];
    var next := back.offset + back.size;
    var size := PrefetchSize(next, c.blockSize, offset, continuous);
    if |c.cache| < 2 && size > 0 then Fetch(c, next, size, busy) else c
  }

  /** The environment's part in a lookup: expired blocks, the measured latency, a write under way. */
  datatype Circumstances = Circumstances(stale: nat, slow: bool, busy: bool)

  ghost predicate Possible(c: CacheState, env: Circumstances) {
    MayExpire(ApplyClear(c), env.stale)
  }

  function Current(c: CacheState, env: Circumstances): CacheState
    requires MayExpire(ApplyClear(c), env.stale)
  {
    DropStale(ApplyClear(c), env.stale)
  }

  /** A miss grows the prefetch block on sequential reads and resets it otherwise. */
  function Resized(limits: Limits, c: CacheState, offset: nat, slow: bool): CacheState
    requires c.InBounds() && c.coeff >= 0.0
  {
    var (blockSize, coeff) :=
      if IsSequential(c, offset) then IncreaseBlockSize(limits, c.blockSize, c.coeff, slow) else ResetBlockSize();
    c.(blockSize := blockSize, coeff := coeff)
  }

  /** Blocks that do not hold the offset are dropped; when none is left the requested range is fetched. */
  function Settle(c: CacheState, offset: nat, size: nat, busy: bool): CacheState
    requires c.InBounds()
  {
    var c' := PopTo(c, offset);
    if c'.cache == [] then Fetch(c', offset, size, busy) else c'
  }

  /** The part of read up to the fetch. */
  function Lookup(limits: Limits, c: CacheState, offset: nat, size: nat, env: Circumstances): CacheState
    requires MayExpire(ApplyClear(c), env.stale) && c.coeff >= 0.0
  {
    var c' := Current(c, env);
    if IsCurrentRead(c', offset) then c' else Settle(Resized(limits, c', offset, env.slow), offset, size, env.busy)
  }

  /** Whether read returns without prefetching. */
  predicate Hit(c: CacheState, offset: nat, env: Circumstances)
    requires MayExpire(ApplyClear(c), env.stale)
  {
    IsCurrentRead(Current(c, env), offset)
  }

  /** A fetch ends with data, whose length becomes the block's size, or with an error. */
  function Arrive(c: CacheState, id: nat, status: Status): CacheState
    requires id < |c.entries| && !status.Pending?
  {
    var e := c.entries[id];
    c.(entries := c.entries[id := e.(status := status, size := if status.Ready? then |status.data| else e.size)])
  }

  /** The fetch of the front block is under way and may end like this. */
  predicate FrontMayEnd(c: CacheState, status: Status) {
    && c.cache != [] && c.cache[0] < |c.entries| && c.entries[c.cache[0]].status.Pending? && !status.Pending?
    && (status.Ready? ==> |status.data| <= c.entries[c.cache[0]].requested)
  }

  function Delivered(c: CacheState, inline: Option<Status>): CacheState
    requires inline.Some? ==> FrontMayEnd(c, inline.value)
  {
    if inline.Some? then Arrive(c, c.cache[0], inline.value) else c
  }

  /** What a reader that waited for a block gets from it. */
  function Serve(e: Entry, offset: nat, size: nat): Result<Bytes, nat>
    requires !e.status.Pending?
  {
    match e.status
    case Broken(errno) => Err(errno)
    case Ready(data) =>
      if data == [] || e.offset + |data| < offset then Ok([])
      else
        var tail := if offset > e.offset then data[offset - e.offset..] else data;
        Ok(if |tail| > size then tail[..size] else tail)
  }

  // ------------------------------------------------------------------------
  // What every state keeps
  // ------------------------------------------------------------------------

  ghost predicate Sized(e: Entry) {
    match e.status
    case Pending => e.size == e.requested
    case Ready(data) => e.size == |data| <= e.requested
    case Broken(_) => e.size == e.requested
  }

  /** At most two blocks, the second starting at or after the end of the first; the block size within its limits. */
  ghost predicate Sound(limits: Limits, c: CacheState) {
    && c.InBounds() && |c.cache| <= 2
    && (forall i :: 0 <= i < |c.entries| ==> Sized(c.entries[i]))
    && (|c.cache| == 2 ==>
          var first, second := c.entries[c.cache[0]], c.entries[c.cache[1]];
          c.cache[0] != c.cache[1] && first.offset + first.size <= second.offset)
    && (c.blockSize == 0 || limits.minSize <= c.blockSize <= limits.maxSize)
    && c.coeff >= 1.0
  }

  /** The block was requested over a range that reaches the offset. */
  ghost predicate Serves(e: Entry, offset: nat, size: nat) {
    e.offset <= offset && (if size > 0 then offset < e.offset + e.requested else offset <= e.offset + e.requested)
  }

  lemma ResizedSound(limits: Limits, c: CacheState, offset: nat, slow: bool)
    requires limits.Valid() && Sound(limits, c)
    ensures Sound(limits, Resized(limits, c, offset, slow))
  {
    var k := c.coeff.Floor;
    assert k >= 1;
    assert limits.minSize * k >= limits.minSize;
    assert c.coeff * limits.powerBase >= c.coeff;
  }

  lemma DropSound(limits: Limits, c: CacheState, n: nat)
    requires Sound(limits, c) && n <= |c.cache|
    ensures Sound(limits, c.(cache := c.cache[n..]))
  {
  }

  lemma SettleSound(limits: Limits, c: CacheState, offset: nat, size: nat, busy: bool)
    requires Sound(limits, c)
    ensures var c' := Settle(c, offset, size, busy);
            && Sound(limits, c') && c'.InBounds() && c'.cache != [] && c'.clear == c.clear
            && Serves(c'.entries[c'.cache[0]], offset, size)
  {
    var n := FirstReaching(c, offset, 0);
    DropSound(limits, c, n);
    hide FirstReaching;
    if n == |c.cache| {
      FetchSound(limits, c, offset, size, busy);
    }
  }

  lemma FetchSound(limits: Limits, c: CacheState, offset: nat, size: nat, busy: bool)
    requires Sound(limits, c)
    ensures Sound(limits, Fetch(c.(cache := []), offset, size, busy))
  {
  }

  /** After a lookup the front block exists and was requested over a range that reaches the offset. */
  lemma LookupSound(limits: Limits, c: CacheState, offset: nat, size: nat, env: Circumstances)
    requires limits.Valid() && Sound(limits, c) && Possible(c, env)
    ensures var c' := Lookup(limits, c, offset, size, env);
            && Sound(limits, c') && c'.InBounds() && c'.cache != [] && !c'.clear
            && Serves(c'.entries[c'.cache[0]], offset, size)
  {
    var c' := Current(c, env);
    DropSound(limits, ApplyClear(c), env.stale);
    if !IsCurrentRead(c', offset) {
      hide Settle, Sound;
      ResizedSound(limits, c', offset, env.slow);
      SettleSound(limits, Resized(limits, c', offset, env.slow), offset, size, env.busy);
    }
  }

  /** Every block cached in c' was cached in c, or is a fetch of the range added by it. */
  ghost predicate Keeps(c: CacheState, c': CacheState, offset: nat, size: nat, busy: bool) {
    && c.entries <= c'.entries
    && forall i :: 0 <= i < |c'.cache| ==>
         || (c'.cache[i] in c.cache && c'.cache[i] < |c.entries|)
         || (c'.cache[i] == |c.entries| < |c'.entries|
             && c'.entries[|c.entries|] == Entry(offset, size, size, Pending, busy))
  }

  lemma SettleKeeps(c: CacheState, offset: nat, size: nat, busy: bool)
    requires c.InBounds()
    ensures Keeps(c, Settle(c, offset, size, busy), offset, size, busy)
  {
    var n := FirstReaching(c, offset, 0);
    hide FirstReaching;
    forall i | 0 <= i < |c.cache| - n ensures c.cache[n..][i] in c.cache {
      assert c.cache[n..][i] == c.cache[n + i];
    }
  }

  /** A smaller cache over the same entries keeps less. */
  lemma KeepsFewer(c: CacheState, c1: CacheState, c': CacheState, offset: nat, size: nat, busy: bool)
    requires Keeps(c1, c', offset, size, busy) && c1.entries == c.entries
    requires forall id <- c1.cache :: id in c.cache
    ensures Keeps(c, c', offset, size, busy)
  {
  }

  lemma SameKeeps(c: CacheState, offset: nat, size: nat, busy: bool)
    requires c.InBounds()
    ensures Keeps(c, c, offset, size, busy)
  {
  }

  /** A lookup keeps blocks of the cache, none of a flagged one, and may add one new fetch. */
  lemma LookupKeeps(limits: Limits, c: CacheState, offset: nat, size: nat, env: Circumstances)
    requires c.coeff >= 0.0 && Possible(c, env)
    ensures var kept := if c.clear then [] else c.cache;
            Keeps(c.(cache := kept), Lookup(limits, c, offset, size, env), offset, size, env.busy)
  {
    var kept := c.(cache := if c.clear then [] else c.cache);
    var c' := Current(c, env);
    CurrentIsPart(c, env);
    hide Current, ApplyClear, MayExpire, IsCurrentRead, Settle, Keeps;
    if IsCurrentRead(c', offset) {
      SameKeeps(c', offset, size, env.busy);
      KeepsFewer(kept, c', c', offset, size, env.busy);
    } else {
      var r := Resized(limits, c', offset, env.slow);
      assert r.entries == c'.entries && r.cache == c'.cache;
      hide Resized;
      SettleKeeps(r, offset, size, env.busy);
      KeepsFewer(kept, r, Settle(r, offset, size, env.busy), offset, size, env.busy);
    }
  }

  lemma CurrentIsPart(c: CacheState, env: Circumstances)
    requires Possible(c, env)
    ensures var c' := Current(c, env);
            && c'.entries == c.entries && c'.coeff == c.coeff && c'.InBounds()
            && forall id <- c'.cache :: id in (if c.clear then [] else c.cache)
  {
  }

  lemma SettleFront(c: CacheState, offset: nat, size: nat, busy: bool)
    requires c.InBounds()
    ensures var c' := Settle(c, offset, size, busy);
            && c'.cache != [] && c'.cache[0] < |c'.entries|
            && var e := c'.entries[c'.cache[0]]; e.Reaches(offset) || e == Entry(offset, size, size, Pending, busy)
  {
    var n := FirstReaching(c, offset, 0);
    hide FirstReaching;
    assert n < |c.cache| ==> c.cache[n..][0] == c.cache[n];
  }

  /** The front block after a lookup holds the offset, or is a fetch of the requested range. */
  lemma LookupFront(limits: Limits, c: CacheState, offset: nat, size: nat, env: Circumstances)
    requires c.coeff >= 0.0 && Possible(c, env)
    ensures var c' := Lookup(limits, c, offset, size, env);
            && c'.cache != [] && c'.cache[0] < |c'.entries|
            && var e := c'.entries[c'.cache[0]];
               e.Reaches(offset) || e == Entry(offset, size, size, Pending, env.busy)
  {
    var c' := Current(c, env);
    if !IsCurrentRead(c', offset) {
      var r := Resized(limits, c', offset, env.slow);
      assert r.InBounds();
      hide Resized, IsSequential;
      SettleFront(r, offset, size, env.busy);
      hide Settle;
    }
  }

  const UNHURRIED := Circumstances(0, false, false)

  /** A cached block that holds the offset is found, the other one not reaching it. */
  lemma LookupFinds(limits: Limits, c: CacheState, offset: nat, size: nat, env: Circumstances, i: nat)
    requires Sound(limits, c) && !c.clear && Possible(c, env)
    requires env.stale <= i < |c.cache| && c.entries[c.cache[i]].Reaches(offset)
    ensures var c' := Lookup(limits, c, offset, size, env);
            && c'.entries == c.entries && c'.cache != [] && c'.cache[0] == c.cache[i] && c'.clear == c.clear
            && forall id <- c'.cache :: id in c.cache
  {
    var c0 := Current(c, env);
    assert c0 == c.(cache := c.cache[env.stale..]);
    if env.stale < i {
      assert c.entries[c0.cache[0]] == c.entries[c.cache[0]];
      assert !c.entries[c.cache[0]].Reaches(offset);
      var r := Resized(limits, c0, offset, env.slow);
      assert r.cache == c.cache && r.entries == c.entries && r.clear == c.clear;
      hide Resized;
      assert FirstReaching(r, offset, 0) == 1;
    }
  }

  /** A cached block whose fetch failed covers the offset. */
  ghost predicate BrokenAt(c: CacheState, offset: nat) {
    && !c.clear
    && exists i :: 0 <= i < |c.cache| && c.cache[i] < |c.entries| && BrokenReaching(c.entries[c.cache[i]], offset)
  }

  ghost predicate BrokenReaching(e: Entry, offset: nat) {
    e.status.Broken? && e.Reaches(offset)
  }

  /**
   * A read waits for a block whose fetch has already failed, instead of asking the
   * underlying file, exactly when such a block in the cache covers its offset; no
   * expiry changes that.
   */
  lemma BrokenFoundExactly(limits: Limits, c: CacheState, offset: nat, size: nat, env: Circumstances)
    requires limits.Valid() && Sound(limits, c) && Possible(c, env)
    ensures var c' := Lookup(limits, c, offset, size, env);
            && c'.cache != [] && c'.cache[0] < |c'.entries|
            && (c'.entries[c'.cache[0]].status.Broken? <==> BrokenAt(c, offset))
  {
    LookupFront(limits, c, offset, size, env);
    assert c.coeff >= 0.0;
    hide Lookup, Sound, Possible, BrokenAt;
    var c' := Lookup(limits, c, offset, size, env);
    if c'.entries[c'.cache[0]].status.Broken? {
      BrokenWasCached(limits, c, offset, size, env);
    }
    if BrokenAt(c, offset) {
      BrokenIsFound(limits, c, offset, size, env);
    }
  }

  lemma BrokenWasCached(limits: Limits, c: CacheState, offset: nat, size: nat, env: Circumstances)
    requires c.coeff >= 0.0 && Possible(c, env)
    requires var c' := Lookup(limits, c, offset, size, env);
             c'.cache != [] && c'.cache[0] < |c'.entries| && c'.entries[c'.cache[0]].status.Broken?
    ensures BrokenAt(c, offset)
  {
    LookupFront(limits, c, offset, size, env);
    LookupKeeps(limits, c, offset, size, env);
    hide Lookup, Possible;
    var c' := Lookup(limits, c, offset, size, env);
    var i :| 0 <= i < |c.cache| && c.cache[i] == c'.cache[0];
    assert c'.entries[c'.cache[0]] == c.entries[c.cache[i]];
    assert BrokenReaching(c.entries[c.cache[i]], offset);
  }

  lemma BrokenIsFound(limits: Limits, c: CacheState, offset: nat, size: nat, env: Circumstances)
    requires Sound(limits, c) && Possible(c, env) && BrokenAt(c, offset)
    ensures var c' := Lookup(limits, c, offset, size, env);
            c'.cache != [] && c'.cache[0] < |c'.entries| && c'.entries[c'.cache[0]].status.Broken?
  {
    hide Lookup;
    var i :| 0 <= i < |c.cache| && c.cache[i] < |c.entries| && BrokenReaching(c.entries[c.cache[i]], offset);
    assert env.stale <= i;
    LookupFinds(limits, c, offset, size, env, i);
  }

  /** With nothing cached, or a cache to be cleared, the range is fetched. */
  lemma LookupOfNothing(limits: Limits, c: CacheState, offset: nat, size: nat)
    requires (c.clear || c.cache == []) && c.coeff >= 0.0
    ensures Lookup(limits, c, offset, size, UNHURRIED) ==
            CacheState(c.entries + [Entry(offset, size, size, Pending, false)], [|c.entries|], false, 0, 1.0)
  {
    var c' := Current(c, UNHURRIED);
    assert c' == c.(cache := [], clear := false);
    var r := Resized(limits, c', offset, false);
    assert r == c'.(blockSize := 0, coeff := 1.0);
    assert PopTo(r, offset) == r;
  }

  /** A prefetch stays within the block size and, once the cached blocks reach the offset, the continuous range. */
  lemma PrefetchBounded(next: nat, blockSize: nat, offset: nat, continuous: nat)
    ensures PrefetchSize(next, blockSize, offset, continuous) <= Min(blockSize, continuous)
    ensures next >= offset && PrefetchSize(next, blockSize, offset, continuous) > 0 ==>
              next + PrefetchSize(next, blockSize, offset, continuous) == Min(next + blockSize, offset + continuous)
    ensures PrefetchSize(next, blockSize, offset, continuous) == 0 <==>
              blockSize == 0 || continuous == 0 || next >= offset + continuous || next + blockSize <= offset
  {
  }

  /** A prefetch follows the cached blocks, no longer than the block size and the continuous range. */
  lemma PrefetchSound(limits: Limits, c: CacheState, offset: nat, continuous: nat, busy: bool)
    requires Sound(limits, c) && c.cache != []
    ensures var c' := Prefetch(c, offset, continuous, busy);
            && Sound(limits, c') && c'.InBounds() && c.cache <= c'.cache && c.entries <= c'.entries
            && forall k :: |c.entries| <= k < |c'.entries| ==> c'.entries[k].requested <= Min(c.blockSize, continuous)
  {
    var back := c.entries[c.cache[|c.cache| - 1]];
    PrefetchBounded(back.offset + back.size, c.blockSize, offset, continuous);
    hide PrefetchSize;
  }

  lemma ArriveSound(limits: Limits, c: CacheState, id: nat, status: Status)
    requires Sound(limits, c) && id < |c.entries| && c.entries[id].status.Pending? && !status.Pending?
    requires status.Ready? ==> |status.data| <= c.entries[id].requested
    ensures Sound(limits, Arrive(c, id, status))
  {
  }

  // ------------------------------------------------------------------------
  // How the prefetched block grows
  // ------------------------------------------------------------------------

  ghost function Power(base: real, k: nat): real {
    if k == 0 then 1.0 else base * Power(base, k - 1)
  }

  /** The block size and coefficient after k sequential misses, each finding the latency above its target. */
  ghost function Grown(limits: Limits, k: nat): (nat, real)
    requires limits.Valid()
  {
    if k == 0 then ResetBlockSize()
    else
      var (blockSize, coeff) := Grown(limits, k - 1);
      if coeff >= 0.0 then IncreaseBlockSize(limits, blockSize, coeff, true) else (blockSize, coeff)
  }

  lemma {:induction false} PowerGrows(base: real, k: nat)
    requires base >= 1.0
    ensures 1.0 <= Power(base, k) <= Power(base, k + 1)
  {
    if k == 0 {
    } else {
      PowerGrows(base, k - 1);
    }
    ScaleGrows(base, Power(base, k));
  }

  lemma PowerStep(base: real, k: nat)
    ensures Power(base, k + 1) == base * Power(base, k)
    ensures k == 0 ==> Power(base, k) == 1.0
  {
  }

  lemma ScaleGrows(base: real, x: real)
    requires base >= 1.0 && x >= 0.0
    ensures base * x >= x
  {
    assert base * x == x + (base - 1.0) * x;
  }

  lemma FloorGrows(size: nat, x: real, y: real)
    requires 0.0 <= x <= y
    ensures 0 <= size * x.Floor <= size * y.Floor
  {
    assert x.Floor <= y.Floor;
    assert size * (y.Floor - x.Floor) >= 0;
  }

  lemma GrownStep(limits: Limits, k: nat)
    requires limits.Valid()
    ensures Grown(limits, k).1 >= 0.0 ==>
              Grown(limits, k + 1) == IncreaseBlockSize(limits, Grown(limits, k).0, Grown(limits, k).1, true)
    ensures k == 0 && limits.maxSize > 0 ==> Grown(limits, 1) == (limits.minSize, limits.powerBase)
  {
  }

  ghost function Floored(size: nat, x: real): int {
    size * x.Floor
  }

  ghost function Scaled(size: nat, x: real): real {
    size as real * x
  }

  /** min * floor(x), at most max. */
  ghost function FlooredSize(limits: Limits, x: real): nat
    requires x >= 0.0
  {
    FloorGrows(limits.minSize, 0.0, x);
    Min(limits.maxSize, Floored(limits.minSize, x))
  }

  lemma GrowthStep(limits: Limits, blockSize: nat, coeff: real, p: real, q: real)
    requires limits.Valid() && 1.0 <= p <= q && coeff >= 1.0
    requires blockSize == FlooredSize(limits, p) && (blockSize < limits.maxSize ==> coeff == q)
    ensures var (blockSize', coeff') := IncreaseBlockSize(limits, blockSize, coeff, true);
            && blockSize' == FlooredSize(limits, q)
            && (blockSize' < limits.maxSize ==> coeff' == limits.powerBase * q)
            && coeff' >= 1.0
  {
    FloorGrows(limits.minSize, p, q);
    ScaleGrows(limits.powerBase, coeff);
  }

  lemma FirstGrowth(limits: Limits)
    requires limits.Valid() && limits.maxSize > 0
    ensures Grown(limits, 1) == (FlooredSize(limits, 1.0), limits.powerBase)
  {
    GrownStep(limits, 0);
    assert 1.0.Floor == 1;
  }

  /** After k + 1 such misses the block size is min * floor(base ^ k), at most max. */
  lemma {:induction false} BlockSizeFormula(limits: Limits, k: nat)
    requires limits.Valid() && limits.maxSize > 0
    ensures Power(limits.powerBase, k) >= 1.0
    ensures var (blockSize, coeff) := Grown(limits, k + 1);
            && blockSize == FlooredSize(limits, Power(limits.powerBase, k))
            && (blockSize < limits.maxSize ==> coeff == Power(limits.powerBase, k + 1))
            && coeff >= 1.0
  {
    var base := limits.powerBase;
    hide Power, Grown, IncreaseBlockSize, FlooredSize;
    PowerGrows(base, k);
    PowerStep(base, k);
    if k == 0 {
      FirstGrowth(limits);
    } else {
      GrownStep(limits, k);
      BlockSizeFormula(limits, k - 1);
      PowerGrows(base, k - 1);
      var (blockSize, coeff) := Grown(limits, k);
      GrowthStep(limits, blockSize, coeff, Power(base, k - 1), Power(base, k));
    }
  }

  /** The documented size after a number of hits: min * base ^ hits, at most max, and none without a hit. */
  ghost function DocumentedSize(limits: Limits, hits: nat): real {
    if hits == 0 then 0.0 else Capped(limits, Power(limits.powerBase, hits))
  }

  ghost function Capped(limits: Limits, x: real): real {
    var size := Scaled(limits.minSize, x);
    if size <= limits.maxSize as real then size else limits.maxSize as real
  }

  /** The block cannot grow, or a factor of floor(x) makes it as large as it may be. */
  ghost predicate GrowthIsOver(limits: Limits, x: real) {
    limits.minSize == 0 || limits.powerBase == 1.0 || Floored(limits.minSize, x) >= limits.maxSize
  }

  lemma {:induction false} PowerOfOne(k: nat)
    ensures Power(1.0, k) == 1.0
  {
    if k == 0 {
    } else {
      PowerOfOne(k - 1);
    }
  }

  lemma {:induction false} NothingGrown(limits: Limits, k: nat)
    requires limits.Valid() && limits.maxSize == 0
    ensures Grown(limits, k).0 == 0
  {
    if k == 0 {
    } else {
      NothingGrown(limits, k - 1);
    }
  }

  lemma ScaledInOrder(size: nat, x: real, y: real)
    requires x <= y
    ensures size as real * x <= size as real * y
    ensures size > 0 && x < y ==> size as real * x < size as real * y
  {
    assert size as real * y == size as real * x + size as real * (y - x);
  }

  lemma FloorBelow(size: nat, x: real)
    ensures (size * x.Floor) as real <= size as real * x
  {
    ScaledInOrder(size, x.Floor as real, x);
    assert (size * x.Floor) as real == size as real * x.Floor as real;
  }

  /** With x and base * x in the place of the powers. */
  lemma SizesAgree(limits: Limits, x: real, y: real)
    requires limits.Valid() && 1.0 <= x <= y && (x == y <==> limits.powerBase == 1.0)
    requires limits.powerBase == 1.0 ==> x == 1.0
    ensures FlooredSize(limits, x) as real == Capped(limits, y) <==> GrowthIsOver(limits, x)
  {
    hide Floored, Scaled;
    FlooredIsLess(limits.minSize, x, y);
    CapsAgree(limits.maxSize, Floored(limits.minSize, x), Scaled(limits.minSize, y));
  }

  /** Capping makes two sizes equal only if they are, or both are too large. */
  lemma CapsAgree(max: nat, floored: nat, scaled: real)
    requires floored as real <= scaled
    ensures Min(max, floored) as real == (if scaled <= max as real then scaled else max as real) <==>
            floored as real == scaled || floored >= max
  {
  }

  lemma FlooredIsLess(size: nat, x: real, y: real)
    requires 1.0 <= x <= y && (x == y ==> x == 1.0)
    ensures 0 <= Floored(size, x) && Floored(size, x) as real <= Scaled(size, y)
    ensures Floored(size, x) as real == Scaled(size, y) <==> size == 0 || x == y
  {
    FloorBelow(size, x);
    FloorGrows(size, 0.0, x);
    ScaledInOrder(size, x, y);
    if x == y {
      assert x.Floor == 1;
    } else if size == 0 {
      assert size as real * y == 0.0;
    }
  }

  lemma PowerStays(base: real, k: nat)
    requires base >= 1.0
    ensures 1.0 <= Power(base, k) <= Power(base, k + 1)
    ensures Power(base, k) == Power(base, k + 1) <==> base == 1.0
    ensures base == 1.0 ==> Power(base, k) == 1.0
  {
    PowerGrows(base, k);
    PowerStep(base, k);
    PowerOfOne(k);
    hide Power;
    assert base * Power(base, k) == Power(base, k) + (base - 1.0) * Power(base, k);
  }

  lemma NothingDocumented(limits: Limits, hits: nat)
    requires limits.Valid() && limits.maxSize == 0
    ensures Grown(limits, hits).0 as real == DocumentedSize(limits, hits)
    ensures forall x :: GrowthIsOver(limits, x)
  {
    NothingGrown(limits, hits);
    hide Power, Grown;
    assert limits.minSize as real == 0.0;
    assert limits.minSize as real * Power(limits.powerBase, hits) == 0.0;
  }

  /** The block has the documented size exactly when it cannot grow, or has reached the maximum one power earlier. */
  lemma SizeAsDocumentedExactly(limits: Limits, hits: nat)
    requires limits.Valid() && hits > 0
    ensures Grown(limits, hits).0 as real == DocumentedSize(limits, hits) <==>
            GrowthIsOver(limits, Power(limits.powerBase, hits - 1))
  {
    hide Grown, Power, Capped, GrowthIsOver, FlooredSize;
    var base, k := limits.powerBase, hits - 1;
    if limits.maxSize == 0 {
      NothingDocumented(limits, hits);
    } else {
      BlockSizeFormula(limits, k);
      PowerStays(base, k);
      SizesAgree(limits, Power(base, k), Power(base, hits));
    }
  }

  /** After one hit the block has the minimum size, where the documentation has base times that. */
  lemma FirstBlockIsSmaller()
    ensures var limits := Limits(10, 100, 2.0);
            limits.Valid() && Grown(limits, 1).0 == 10 && DocumentedSize(limits, 1) == 20.0
  {
    var limits := Limits(10, 100, 2.0);
    GrownStep(limits, 0);
    PowerStep(2.0, 0);
  }

  // ------------------------------------------------------------------------
  // What is served
  // ------------------------------------------------------------------------

  /** The block holds, or will hold, the underlying file's bytes. */
  ghost predicate Faithful(e: Entry, file: Bytes) {
    match e.status
    case Pending => !e.torn
    case Ready(data) => data == ReadAt(file, e.offset, e.requested)
    case Broken(_) => true
  }

  lemma ServeSlices(e: Entry, offset: nat, size: nat)
    requires e.status.Ready? && e.offset <= offset
    ensures Serve(e, offset, size) == Ok(ReadAt(e.status.data, offset - e.offset, size))
  {
    var data, k := e.status.data, offset - e.offset;
    if k <= |data| {
      assert Serve(e, offset, size).value == if |data| - k > size then data[k..][..size] else data[k..];
    }
    assert Serve(e, offset, size).value == ReadAt(data, k, size);
  }

  lemma ReadWithinRead(file: Bytes, start: nat, length: nat, k: nat, size: nat)
    ensures ReadAt(ReadAt(file, start, length), k, size) <= ReadAt(file, start + k, size)
  {
    var inner, outer := ReadAt(ReadAt(file, start, length), k, size), ReadAt(file, start + k, size);
    assert |inner| <= |outer| && forall i :: 0 <= i < |inner| ==> inner[i] == outer[i];
  }

  lemma SomethingRead(file: Bytes, start: nat, length: nat, k: nat, size: nat)
    requires k < length && size > 0 && start + k < |file|
    ensures ReadAt(ReadAt(file, start, length), k, size) != []
  {
    var slice := ReadAt(file, start, length);
    assert k < |slice|;
    hide ReadAt;
  }

  /** A faithful block serves a front part of the requested slice, and some of it unless the file ends before. */
  lemma ServeIsPrefix(e: Entry, file: Bytes, offset: nat, size: nat)
    requires Serves(e, offset, size) && Faithful(e, file) && !e.status.Pending?
    ensures Serve(e, offset, size).Ok? ==> Serve(e, offset, size).value <= ReadAt(file, offset, size)
    ensures Serve(e, offset, size).Ok? && size > 0 && offset < |file| ==> Serve(e, offset, size).value != []
  {
    hide ReadAt;
    if e.status.Ready? {
      hide Serve;
      FaithfulServes(e, file, offset, size);
    }
  }

  lemma FaithfulServes(e: Entry, file: Bytes, offset: nat, size: nat)
    requires Serves(e, offset, size) && Faithful(e, file) && e.status.Ready?
    ensures Serve(e, offset, size).Ok? && Serve(e, offset, size).value <= ReadAt(file, offset, size)
    ensures size > 0 && offset < |file| ==> Serve(e, offset, size).value != []
  {
    hide Serve, ReadAt;
    var k: nat := offset - e.offset;
    var value := ReadAt(ReadAt(file, e.offset, e.requested), k, size);
    ServeSlices(e, offset, size);
    assert Serve(e, offset, size) == Ok(value) && e.offset + k == offset;
    ReadWithinRead(file, e.offset, e.requested, k, size);
    if size > 0 && offset < |file| {
      SomethingRead(file, e.offset, e.requested, k, size);
    }
  }

  // ------------------------------------------------------------------------
  // The object
  // ------------------------------------------------------------------------

  class ReadCache {
    const limits: Limits
    var entries: seq<Entry>
    var cache: seq<nat>
    var clear: bool
    var blockSize: nat
    var coeff: real

    constructor (limits: Limits)
      ensures this.limits == limits && State() == EMPTY
    {
      this.limits := limits;
      entries, cache, clear, blockSize, coeff := [], [], false, 0, 1.0;
    }

    ghost function State(): CacheState
      reads this
    {
      CacheState(entries, cache, clear, blockSize, coeff)
    }

    ghost predicate Valid()
      reads this
    {
      limits.Valid() && Sound(limits, State())
    }

    method Clear()
      modifies this`clear
      ensures State() == old(State()).(clear := true)
    {
      clear := true;
    }

    method ClearStaleEntries(stale: nat)
      requires MayExpire(State(), stale)
      modifies this`cache
      ensures State() == DropStale(old(State()), stale)
    {
      for k := 0 to stale
        invariant cache == old(cache)[k..]
      {
        cache := cache[1..];
      }
    }

    method FetchBlock(offset: nat, size: nat, busy: bool)
      modifies this`entries, this`cache
      ensures State() == Fetch(old(State()), offset, size, busy)
    {
      cache := cache + [|entries|];
      entries := entries + [Entry(offset, size, size, Pending, busy)];
    }

    method PopUntilCurrent(offset: nat)
      requires State().InBounds()
      modifies this`cache
      ensures State() == PopTo(old(State()), offset)
    {
      ghost var c, k := State(), 0;
      while cache != [] && !IsCurrentRead(CacheState(entries, cache, clear, blockSize, coeff), offset)
        invariant k <= FirstReaching(c, offset, 0) && cache == c.cache[k..]
        decreases |cache|
      {
        cache := cache[1..];
        k := k + 1;
      }
    }

    method PrefetchIfNeeded(offset: nat, continuous: nat, busy: bool)
      requires State().InBounds() && cache != []
      modifies this`entries, this`cache
      ensures State() == Prefetch(old(State()), offset, continuous, busy)
    {
      var back := entries[cache[|cache| - 1]];
      var next := back.offset + back.size;
      var size := PrefetchSize(next, blockSize, offset, continuous);
      if |cache| < 2 && size > 0 {
        FetchBlock(next, size, busy);
      }
    }

    /** Empties a flagged cache and drops what has expired. */
    method Refresh(stale: nat)
      requires MayExpire(ApplyClear(State()), stale)
      modifies this`cache, this`clear
      ensures State() == DropStale(ApplyClear(old(State())), stale)
    {
      if clear {
        cache, clear := [], false;
      }
      ClearStaleEntries(stale);
    }

    /**
     * Chooses the block to wait for. `inline` is what the front block's fetch
     * ends with when it ends before prefetching is considered.
     */
    method Read(offset: nat, size: nat, continuous: nat, env: Circumstances, inline: Option<Status>) returns (id: nat)
      requires Valid() && Possible(State(), env)
      requires inline.Some? ==> FrontMayEnd(Lookup(limits, State(), offset, size, env), inline.value)
      modifies this
      ensures Valid() && cache != [] && id == cache[0] < |entries| && Serves(entries[id], offset, size)
      ensures var c := Lookup(limits, old(State()), offset, size, env);
              && c.InBounds() && c.cache != []
              && State() == if Hit(old(State()), offset, env) then c
                            else Prefetch(Delivered(c, inline), offset, continuous, env.busy)
    {
      ghost var c0 := State();
      assert c0.coeff >= 0.0;
      hide Sound, Serves, Settle, Resized, Prefetch, Delivered, FrontMayEnd;
      LookupSound(limits, c0, offset, size, env);
      Refresh(env.stale);
      if IsCurrentRead(CacheState(entries, cache, clear, blockSize, coeff), offset) {
        return cache[0];
      }
      Miss(offset, size, env);
      hide ApplyClear, DropStale, IsCurrentRead;
      Deliver(offset, size, inline);
      PrefetchSound(limits, State(), offset, continuous, env.busy);
      PrefetchIfNeeded(offset, continuous, env.busy);
      id := cache[0];
    }

    /** A fetch that completes before the call that made it goes on. */
    method Deliver(offset: nat, size: nat, inline: Option<Status>)
      requires Valid() && cache != [] && cache[0] < |entries| && Serves(entries[cache[0]], offset, size)
      requires inline.Some? ==> FrontMayEnd(State(), inline.value)
      modifies this`entries
      ensures Valid() && |entries| == |old(entries)| && Serves(entries[cache[0]], offset, size)
      ensures State() == Delivered(old(State()), inline)
    {
      if inline.Some? {
        ArriveSound(limits, State(), cache[0], inline.value);
        var e := entries[cache[0]];
        entries := entries[cache[0] := e.(status := inline.value,
                                          size := if inline.value.Ready? then |inline.value.data| else e.size)];
      }
    }

    /** The part of read between the failed hit test and the prefetch. */
    method Miss(offset: nat, size: nat, env: Circumstances)
      requires State().InBounds() && coeff >= 0.0
      modifies this
      ensures State() == Settle(Resized(limits, old(State()), offset, env.slow), offset, size, env.busy)
    {
      var c := CacheState(entries, cache, clear, blockSize, coeff);
      if IsSequential(c, offset) {
        var (b, k) := IncreaseBlockSize(limits, blockSize, coeff, env.slow);
        blockSize, coeff := b, k;
      } else {
        var (b, k) := ResetBlockSize();
        blockSize, coeff := b, k;
      }
      PopUntilCurrent(offset);
      if cache == [] {
        FetchBlock(offset, size, env.busy);
      }
    }
  }
}
