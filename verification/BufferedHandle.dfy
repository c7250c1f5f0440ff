/**
 * The buffered file handle as a state machine: a client that awaits each
 * operation, the flush timer, the underlying writes of pushed batches and the
 * underlying reads of the cache interleave freely.
 */
module BufferedHandle {
  import opened Wrappers
  import opened FlatFile
  import opened MultiWrite
  import W = WriteBuffering
  import R = ReadCaching

  datatype Limits = Limits(write: W.Limits, read: R.Limits)

  /** What follows once the awaited batches are confirmed. */
  datatype Next = ThenRead(offset: nat, size: nat, continuous: nat) | ThenClear

  /** Where the client's current operation stands; waits are the batches it awaits. */
  datatype Pc =
    | Idle
    | Writing(waits: seq<nat>)
    | Syncing(waits: seq<nat>, next: Next)
    | Prefetching(offset: nat, size: nat, continuous: nat)
    | Waiting(id: nat, offset: nat, size: nat)

  /** A returned read, with the file, the expected file, the failures and the losses at that time. */
  datatype Answer = Answer(
    offset: nat, size: nat, value: Result<Bytes, nat>,
    file: Bytes, expected: Bytes, failed: set<nat>, lost: set<nat>, tainted: bool)

  /**
   * file is the underlying file; reports holds how the writes of the first queued
   * batch ended so far, completed counts the batches that have ended. expected is
   * the file with every accepted write applied in order. failed are the batches
   * that ended in an error, lost those with a buffer not written in full. tainted
   * says that a batch failed since the read cache was last told to clear.
   */
  datatype Handle = Handle(
    file: Bytes, w: W.WriteState, reports: seq<Report>, completed: nat,
    failed: set<nat>, lost: set<nat>, tainted: bool,
    c: R.CacheState, pc: Pc, expected: Bytes, answers: seq<Answer>)

  ghost predicate Init(h: Handle) {
    h == Handle(h.file, W.EMPTY, [], 0, {}, {}, false, R.EMPTY, Idle, h.file, [])
  }

  // ------------------------------------------------------------------------
  // Steps
  // ------------------------------------------------------------------------

  function Torn(entries: seq<R.Entry>): (r: seq<R.Entry>)
    ensures |r| == |entries|
    ensures forall i :: 0 <= i < |r| ==>
              r[i] == if entries[i].status.Pending? then entries[i].(torn := true) else entries[i]
  {
    seq(|entries|, i requires 0 <= i < |entries| =>
      if entries[i].status.Pending? then entries[i].(torn := true) else entries[i])
  }

  /** A push starts underlying writes, which overlap the fetches under way. */
  function Disturbed(h: Handle, w': W.WriteState): R.CacheState {
    if w'.pushed == h.w.pushed then h.c else h.c.(entries := Torn(h.c.entries))
  }

  ghost predicate Confirmed(h: Handle, waits: seq<nat>) {
    forall b <- waits :: b < h.completed
  }

  ghost predicate ClientWrite(limits: Limits, h: Handle, h': Handle) {
    && h.pc.Idle? && W.Accounted(h.w)
    && exists offset: nat, data: Bytes, flushBps: nat, confirmBps: nat ::
         WriteStep(limits, h, offset, data, flushBps, confirmBps, h')
  }

  ghost predicate WriteStep(
    limits: Limits, h: Handle, offset: nat, data: Bytes, flushBps: nat, confirmBps: nat, h': Handle)
    requires W.Accounted(h.w)
  {
    var (w', waits) := W.Write(h.w, limits.write, offset, data, flushBps, confirmBps);
    h' == h.(w := w', c := Disturbed(h, w'), pc := Writing(waits), expected := WriteAt(h.expected, offset, data))
  }

  ghost predicate WriteReturns(h: Handle, h': Handle) {
    h.pc.Writing? && Confirmed(h, h.pc.waits) && h' == h.(pc := Idle)
  }

  /** read, fsync and flush all begin with an fsync of the write buffer. */
  ghost predicate ClientSync(h: Handle, h': Handle) {
    && h.pc.Idle? && W.Accounted(h.w)
    && var (w', waits) := W.Sync(h.w);
       && h'.pc.Syncing? && h'.pc.waits == waits
       && h' == h.(w := w', c := Disturbed(h, w'), pc := h'.pc)
  }

  ghost predicate SyncFails(h: Handle, h': Handle) {
    && h.pc.Syncing? && Confirmed(h, h.pc.waits) && (exists b <- h.pc.waits :: b in h.failed)
    && h' == h.(pc := Idle)
  }

  ghost predicate Synced(h: Handle) {
    h.pc.Syncing? && Confirmed(h, h.pc.waits) && forall b <- h.pc.waits :: b !in h.failed
  }

  ghost predicate ClearCache(h: Handle, h': Handle) {
    && Synced(h) && h.pc.next.ThenClear?
    && h' == h.(c := h.c.(clear := true), tainted := false, pc := Idle)
  }

  ghost predicate StartRead(limits: Limits, h: Handle, env: R.Circumstances, h': Handle) {
    && Synced(h) && h.pc.next.ThenRead?
    && R.Possible(h.c, env) && h.c.coeff >= 0.0 && env.busy == (h.w.queue != [])
    && var c' := R.Lookup(limits.read, h.c, h.pc.next.offset, h.pc.next.size, env);
       && c'.cache != []
       && h' == h.(c := c',
                   pc := if R.Hit(h.c, h.pc.next.offset, env)
                         then Waiting(c'.cache[0], h.pc.next.offset, h.pc.next.size)
                         else Prefetching(h.pc.next.offset, h.pc.next.size, h.pc.next.continuous))
  }

  ghost predicate PrefetchMore(h: Handle, h': Handle) {
    && h.pc.Prefetching? && h.c.InBounds() && h.c.cache != []
    && var c' := R.Prefetch(h.c, h.pc.offset, h.pc.continuous, h.w.queue != []);
       h' == h.(c := c', pc := Waiting(h.c.cache[0], h.pc.offset, h.pc.size))
  }

  ghost predicate ReadReturns(h: Handle, h': Handle) {
    && h.pc.Waiting? && h.pc.id < |h.c.entries| && !h.c.entries[h.pc.id].status.Pending?
    && var value := R.Serve(h.c.entries[h.pc.id], h.pc.offset, h.pc.size);
       h' == h.(pc := Idle,
                answers := h.answers +
                           [Answer(h.pc.offset, h.pc.size, value, h.file, h.expected, h.failed, h.lost, h.tainted)])
  }

  ghost predicate TimerFlush(h: Handle, h': Handle) {
    h' == h.(w := W.Push(h.w), c := Disturbed(h, W.Push(h.w)))
  }

  /** multiwrite passes over the next buffer: a write failed, or more was reported than the buffers held. */
  predicate PassesOver(batch: seq<Buffer>, reports: seq<Report>)
    requires |reports| <= |batch|
  {
    var p := Chain(batch, reports, |reports|);
    p.value.Err? || LengthOf(batch, |reports|) < p.value.value
  }

  /**
   * The next buffer of the first batch: a front part of n bytes reaches the file
   * and the write ends with any report, unless multiwrite passes over it.
   */
  ghost predicate UnderlyingWrite(h: Handle, n: nat, report: Report, h': Handle) {
    && h.w.queue != [] && |h.reports| < |h.w.queue[0]|
    && var b := h.w.queue[0][|h.reports|];
       && n <= |b.data| && (PassesOver(h.w.queue[0], h.reports) ==> n == 0 && report == Wrote(0))
       && h' == h.(file := WriteAt(h.file, b.offset, b.data[..n]), reports := h.reports + [report],
                   lost := if n < |b.data| then h.lost + {h.completed} else h.lost)
  }

  /** How the first batch ends, once multiwrite is through with it. */
  predicate Through(h: Handle) {
    h.w.queue != [] && |h.reports| == |h.w.queue[0]|
  }

  function Outcome(h: Handle): Result<nat, nat>
    requires Through(h)
  {
    Chain(h.w.queue[0], h.reports, |h.reports|).value
  }

  ghost predicate BatchDone(h: Handle, h': Handle) {
    && Through(h) && Outcome(h).Ok?
    && h' == h.(w := h.w.(queue := h.w.queue[1..]), reports := [], completed := h.completed + 1,
                c := h.c.(clear := true), tainted := false)
  }

  /** A failed batch is confirmed with an error and does not clear the cache. */
  ghost predicate BatchFails(h: Handle, h': Handle) {
    && Through(h) && Outcome(h).Err?
    && h' == h.(w := h.w.(queue := h.w.queue[1..]), reports := [], completed := h.completed + 1,
                failed := h.failed + {h.completed}, tainted := true)
  }

  /** Undisturbed fetches return what the file holds; disturbed ones return anything of the right length. */
  ghost predicate FetchDone(h: Handle, id: nat, status: R.Status, h': Handle) {
    && id < |h.c.entries| && h.c.entries[id].status.Pending? && !status.Pending?
    && (status.Ready? ==>
          var e := h.c.entries[id];
          |status.data| <= e.requested && (!e.torn ==> status.data == ReadAt(h.file, e.offset, e.requested)))
    && h' == h.(c := R.Arrive(h.c, id, status))
  }

  ghost predicate Step(limits: Limits, h: Handle, h': Handle) {
    || ClientWrite(limits, h, h') || WriteReturns(h, h')
    || ClientSync(h, h') || SyncFails(h, h') || ClearCache(h, h')
    || (exists env :: StartRead(limits, h, env, h')) || PrefetchMore(h, h') || ReadReturns(h, h')
    || TimerFlush(h, h') || (exists n, report :: UnderlyingWrite(h, n, report, h'))
    || BatchDone(h, h') || BatchFails(h, h')
    || (exists id, status :: FetchDone(h, id, status, h'))
  }

  ghost predicate Run(limits: Limits, run: seq<Handle>) {
    && limits.read.Valid() && run != [] && Init(run[0])
    && forall i :: 0 <= i < |run| - 1 ==> Step(limits, run[i], run[i + 1])
  }

  // ------------------------------------------------------------------------
  // Invariants
  // ------------------------------------------------------------------------

  function Waits(pc: Pc): seq<nat> {
    if pc.Writing? || pc.Syncing? then pc.waits else []
  }

  predicate Reading(pc: Pc) {
    pc.Prefetching? || pc.Waiting?
  }

  ghost predicate Settled(h: Handle, b: int) {
    b < h.completed || b in Waits(h.pc)
  }

  /** Every batch is in the queue or completed; popped confirmations are completed or awaited. */
  ghost predicate Booked(h: Handle) {
    && W.Accounted(h.w)
    && h.completed + |h.w.queue| == h.w.pushed
    && (if h.w.queue == [] then h.reports == [] else |h.reports| <= |h.w.queue[0]|)
    && (forall b :: 0 <= b < h.w.pushed - |h.w.confirmations| ==> Settled(h, b))
    && (h.pc.Syncing? ==> h.w.bufferedSize == 0 && h.w.confirmations == [])
    && (Reading(h.pc) ==> h.w.bufferedSize == 0 && h.w.queue == [])
  }

  /** The write buffer without the buffers already written. */
  ghost function Trimmed(h: Handle): W.WriteState
    requires h.w.queue != [] ==> |h.reports| <= |h.w.queue[0]|
  {
    h.w.(queue := TrimmedQueue(h.w.queue, |h.reports|))
  }

  ghost function TrimmedQueue(queue: seq<seq<Buffer>>, progress: nat): seq<seq<Buffer>>
    requires queue != [] ==> progress <= |queue[0]|
  {
    if queue == [] then [] else queue[0 := queue[0][progress..]]
  }

  /** What is accepted and not yet in the underlying file. */
  ghost function Remaining(h: Handle): seq<Buffer>
    requires Booked(h)
  {
    W.Outstanding(Trimmed(h))
  }

  ghost predicate Meant(h: Handle) {
    && Booked(h)
    && (h.lost == {} ==> h.expected == ApplyAll(h.file, Remaining(h)))
    && (h.failed == {} ==> !h.tainted)
  }

  ghost predicate Cached(limits: Limits, h: Handle) {
    && limits.read.Valid() && R.Sound(limits.read, h.c)
    && (h.pc.Prefetching? ==>
          h.c.cache != [] && !h.c.clear && R.Serves(h.c.entries[h.c.cache[0]], h.pc.offset, h.pc.size))
    && (h.pc.Waiting? ==> h.pc.id < |h.c.entries| && R.Serves(h.c.entries[h.pc.id], h.pc.offset, h.pc.size))
  }

  /** With no write under way, an unflagged cache holds the underlying file's bytes. */
  ghost predicate Coherent(h: Handle) {
    && (h.w.queue == [] && !h.c.clear && !h.tainted ==>
          forall i :: 0 <= i < |h.c.cache| && h.c.cache[i] < |h.c.entries| ==>
            R.Faithful(h.c.entries[h.c.cache[i]], h.file))
    && (h.pc.Waiting? && h.pc.id < |h.c.entries| && !h.tainted ==> R.Faithful(h.c.entries[h.pc.id], h.file))
  }

  /** A read that returned bytes returned a front part of the requested slice, and some of it before end of file. */
  ghost predicate ReadOf(a: Answer, file: Bytes) {
    a.value.Ok? ==>
      && a.value.value <= ReadAt(file, a.offset, a.size)
      && (a.size > 0 && a.offset < |file| ==> a.value.value != [])
  }

  ghost predicate Answered(h: Handle) {
    forall a <- h.answers ::
      && (!a.tainted ==> ReadOf(a, a.file) && (a.lost == {} ==> ReadOf(a, a.expected)))
      && (a.failed == {} ==> !a.tainted)
  }

  // ------------------------------------------------------------------------
  // Bookkeeping
  // ------------------------------------------------------------------------

  /** Popping the confirmations from `start` on and awaiting them leaves every popped batch settled. */
  lemma PoppedSettled(h: Handle, h': Handle, start: int, waits: seq<nat>)
    requires h'.completed == h.completed && start >= 0
    requires forall b :: 0 <= b < start ==> Settled(h, b)
    requires forall i :: 0 <= i < |waits| ==> waits[i] == start + i
    requires forall b <- Waits(h.pc) :: b in Waits(h'.pc)
    requires forall b <- waits :: b in Waits(h'.pc)
    ensures forall b :: 0 <= b < start + |waits| ==> Settled(h', b)
  {
    forall b | 0 <= b < start + |waits| ensures Settled(h', b) {
      if b >= start {
        assert waits[b - start] in waits;
      } else {
        assert Settled(h, b);
      }
    }
  }

  lemma QueueGrown(h: Handle, h': Handle)
    requires h.completed + |h.w.queue| == h.w.pushed
    requires if h.w.queue == [] then h.reports == [] else |h.reports| <= |h.w.queue[0]|
    requires |h'.w.queue| >= |h.w.queue| && h'.w.queue[..|h.w.queue|] == h.w.queue
    requires |h'.w.queue| - |h.w.queue| == h'.w.pushed - h.w.pushed
    requires h'.completed == h.completed && h'.reports == h.reports
    ensures h'.completed + |h'.w.queue| == h'.w.pushed
    ensures if h'.w.queue == [] then h'.reports == [] else |h'.reports| <= |h'.w.queue[0]|
    ensures h'.w.queue != [] ==> |h'.reports| <= |h'.w.queue[0]|
    ensures TrimmedQueue(h'.w.queue, |h'.reports|) ==
            TrimmedQueue(h.w.queue, |h.reports|) + h'.w.queue[|h.w.queue|..]
  {
    if h.w.queue != [] {
      assert h'.w.queue[0] == h'.w.queue[..|h.w.queue|][0];
      assert h'.w.queue == h.w.queue + h'.w.queue[|h.w.queue|..];
    } else if h'.w.queue != [] {
      assert h'.w.queue[0][0..] == h'.w.queue[0];
    }
  }

  /** Whatever extends the write buffer and awaits the popped confirmations keeps the books. */
  lemma ExtendedBooked(h: Handle, h': Handle, waits: seq<nat>)
    requires Booked(h) && W.Extends(h.w, h'.w, waits)
    requires h'.completed == h.completed && h'.reports == h.reports
    requires if waits == [] && h'.pc == h.pc then true else h.pc.Idle? && Waits(h'.pc) == waits
    requires !Reading(h'.pc) || (h'.pc == h.pc && h'.w == h.w)
    requires h'.pc.Syncing? ==> h'.w.bufferedSize == 0 && h'.w.confirmations == []
    ensures Booked(h')
  {
    assert |h.w.confirmations| <= h.w.pushed;
    hide W.Accounted;
    QueueGrown(h, h');
    PoppedSettled(h, h', h.w.pushed - |h.w.confirmations|, waits);
  }

  lemma WriteBooked(limits: Limits, h: Handle, h': Handle)
    requires Booked(h) && ClientWrite(limits, h, h')
    ensures Booked(h')
  {
    hide W.Accounted, W.Write, W.Extends, Disturbed, WriteAt, Settled;
    var offset: nat, data: Bytes, flushBps: nat, confirmBps: nat :|
      WriteStep(limits, h, offset, data, flushBps, confirmBps, h');
    W.WriteExtends(h.w, limits.write, offset, data, flushBps, confirmBps);
    ExtendedBooked(h, h', h'.pc.waits);
  }

  lemma SyncBooked(h: Handle, h': Handle)
    requires Booked(h) && ClientSync(h, h')
    ensures Booked(h')
  {
    hide W.Accounted, W.Sync, W.Extends, Disturbed, Settled;
    W.SyncExtends(h.w);
    ExtendedBooked(h, h', h'.pc.waits);
  }

  lemma FlushBooked(h: Handle, h': Handle)
    requires Booked(h) && TimerFlush(h, h')
    ensures Booked(h')
  {
    hide W.Accounted, W.Extends, Disturbed, Settled;
    W.PushExtends(h.w);
    ExtendedBooked(h, h', []);
  }

  /** When everything awaited is confirmed, no batch is left in the queue. */
  lemma SyncedQueueEmpty(h: Handle)
    requires Booked(h) && h.pc.Syncing? && Confirmed(h, h.pc.waits)
    ensures h.w.queue == []
  {
    if h.w.pushed > 0 {
      assert Settled(h, h.w.pushed - 1);
    }
  }

  lemma ReturnBooked(h: Handle, h': Handle)
    requires Booked(h) && (h.pc.Writing? || h.pc.Syncing?) && Confirmed(h, h.pc.waits)
    requires h'.w == h.w && h'.reports == h.reports && h'.completed == h.completed
    requires !h'.pc.Syncing? && (Reading(h'.pc) ==> h.pc.Syncing?)
    ensures Booked(h')
  {
    hide W.Accounted;
    if h.pc.Syncing? {
      SyncedQueueEmpty(h);
    }
    forall b | 0 <= b < h.w.pushed - |h.w.confirmations| ensures Settled(h', b) {
      assert Settled(h, b);
    }
  }

  lemma QuietBooked(h: Handle, h': Handle)
    requires Booked(h)
    requires || (exists n, report :: UnderlyingWrite(h, n, report, h')) || BatchDone(h, h') || BatchFails(h, h')
             || (h'.w == h.w && h'.reports == h.reports && h'.completed == h.completed
                 && (h'.pc == h.pc || (Reading(h.pc) && !h'.pc.Syncing?)))
    ensures Booked(h')
  {
    if BatchDone(h, h') || BatchFails(h, h') {
      assert W.Accounted(h'.w);
    }
    hide W.Accounted;
    forall b | 0 <= b < h.w.pushed - |h.w.confirmations| ensures Settled(h', b) {
      assert Settled(h, b);
    }
  }

  lemma QuietKeepsBooks(limits: Limits, h: Handle, h': Handle)
    requires Booked(h) && Step(limits, h, h')
    requires !ClientWrite(limits, h, h') && !ClientSync(h, h') && !TimerFlush(h, h')
    ensures Booked(h')
  {
    hide Booked, ClientWrite, ClientSync, TimerFlush, R.Lookup, R.Serve, R.Arrive, R.Prefetch;
    if (h.pc.Writing? || h.pc.Syncing?) && h'.pc != h.pc {
      ReturnBooked(h, h');
    } else {
      QuietBooked(h, h');
    }
  }

  lemma BookedStep(limits: Limits, h: Handle, h': Handle)
    requires Booked(h) && Step(limits, h, h')
    ensures Booked(h')
  {
    hide Booked, Step, ClientWrite, ClientSync, TimerFlush;
    if ClientWrite(limits, h, h') {
      WriteBooked(limits, h, h');
    } else if ClientSync(h, h') {
      SyncBooked(h, h');
    } else if TimerFlush(h, h') {
      FlushBooked(h, h');
    } else {
      QuietKeepsBooks(limits, h, h');
    }
  }

  // ------------------------------------------------------------------------
  // Meaning
  // ------------------------------------------------------------------------

  lemma WriteMeant(limits: Limits, h: Handle, h': Handle)
    requires Meant(h) && ClientWrite(limits, h, h') && Booked(h')
    ensures Meant(h')
  {
    var offset: nat, data: Bytes, flushBps: nat, confirmBps: nat :|
      WriteStep(limits, h, offset, data, flushBps, confirmBps, h');
    var q := TrimmedQueue(h.w.queue, |h.reports|);
    W.WriteQueue(h.w, limits.write, offset, data, flushBps, confirmBps, q);
    assert Trimmed(h) == h.w.(queue := q);
    W.WriteMeansWrite(Trimmed(h), limits.write, h.file, offset, data, flushBps, confirmBps);
    hide W.Accounted, W.Write, W.Outstanding;
    QueueGrown(h, h');
    assert Trimmed(h') == W.Write(Trimmed(h), limits.write, offset, data, flushBps, confirmBps).0;
  }

  lemma SyncMeant(h: Handle, h': Handle)
    requires Meant(h) && ClientSync(h, h') && Booked(h')
    ensures Meant(h')
  {
    var q := TrimmedQueue(h.w.queue, |h.reports|);
    W.SyncQueue(h.w, q);
    W.SyncLeavesNothing(Trimmed(h));
    W.PushKeepsOutstanding(Trimmed(h));
    assert Trimmed(h) == h.w.(queue := q);
    hide W.Accounted;
    QueueGrown(h, h');
    assert Trimmed(h') == W.Sync(Trimmed(h)).0;
    assert W.Outstanding(Trimmed(h')) == W.Outstanding(W.Push(Trimmed(h)));
  }

  lemma FlushMeant(h: Handle, h': Handle)
    requires Meant(h) && TimerFlush(h, h') && Booked(h')
    ensures Meant(h')
  {
    var q := TrimmedQueue(h.w.queue, |h.reports|);
    W.PushQueue(h.w, q);
    W.PushKeepsOutstanding(Trimmed(h));
    hide W.Accounted, W.Outstanding;
    QueueGrown(h, h');
    assert Trimmed(h') == W.Push(Trimmed(h));
  }

  lemma UnderlyingMeant(h: Handle, n: nat, report: Report, h': Handle)
    requires Meant(h) && UnderlyingWrite(h, n, report, h') && Booked(h')
    ensures Meant(h')
  {
    var first := h.w.queue[0];
    var rest := h.w.queue[1..];
    var b := first[|h.reports|];
    assert first[|h.reports|..] == [b] + first[|h.reports| + 1..];
    assert TrimmedQueue(h.w.queue, |h.reports|)[1..] == rest;
    assert TrimmedQueue(h.w.queue, |h.reports| + 1)[1..] == rest;
    assert Remaining(h) == [b] + Remaining(h');
    ApplyAppend(h.file, [b], Remaining(h'));
    assert ApplyAll(h.file, [b]) == WriteAt(h.file, b.offset, b.data);
    assert n == |b.data| ==> b.data[..n] == b.data;
  }

  lemma BatchMeant(h: Handle, h': Handle)
    requires Meant(h) && (BatchDone(h, h') || BatchFails(h, h')) && Booked(h')
    ensures Meant(h')
  {
    hide Outcome, ApplyAll, W.Accounted;
    var q := TrimmedQueue(h.w.queue, |h.reports|);
    assert q[0] == [] && q[1..] == h.w.queue[1..];
    assert W.Flatten(q) == W.Flatten(q[1..]);
    assert h'.w.queue != [] ==> h'.w.queue[0][0..] == h'.w.queue[0];
    assert TrimmedQueue(h'.w.queue, 0) == h'.w.queue;
    assert Remaining(h') == Remaining(h);
  }

  ghost predicate WritesUntouched(h: Handle, h': Handle) {
    && h'.w == h.w && h'.reports == h.reports && h'.file == h.file && h'.expected == h.expected
    && h'.failed == h.failed && h'.lost == h.lost && (h'.tainted ==> h.tainted)
  }

  ghost predicate WritesMove(limits: Limits, h: Handle, h': Handle) {
    || ClientWrite(limits, h, h') || ClientSync(h, h') || TimerFlush(h, h')
    || (exists n, report :: UnderlyingWrite(h, n, report, h')) || BatchDone(h, h') || BatchFails(h, h')
  }

  lemma QuietKeepsWrites(limits: Limits, h: Handle, h': Handle)
    requires Step(limits, h, h') && !WritesMove(limits, h, h')
    ensures WritesUntouched(h, h')
  {
    hide ClientWrite, ClientSync, TimerFlush, UnderlyingWrite, BatchDone, BatchFails;
    hide R.Lookup, R.Arrive, R.Prefetch, R.Serve;
  }

  lemma QuietMeant(h: Handle, h': Handle)
    requires Meant(h) && Booked(h') && WritesUntouched(h, h')
    ensures Meant(h')
  {
    hide W.Outstanding, W.Accounted;
  }

  lemma MeantStep(limits: Limits, h: Handle, h': Handle)
    requires Meant(h) && Step(limits, h, h')
    ensures Meant(h')
  {
    BookedStep(limits, h, h');
    hide Meant, Booked, Step, ClientWrite, ClientSync, TimerFlush, UnderlyingWrite, BatchDone, BatchFails;
    hide WritesUntouched;
    if ClientWrite(limits, h, h') {
      WriteMeant(limits, h, h');
    } else if ClientSync(h, h') {
      SyncMeant(h, h');
    } else if TimerFlush(h, h') {
      FlushMeant(h, h');
    } else if n, report :| UnderlyingWrite(h, n, report, h') {
      UnderlyingMeant(h, n, report, h');
    } else if BatchDone(h, h') || BatchFails(h, h') {
      BatchMeant(h, h');
    } else {
      QuietKeepsWrites(limits, h, h');
      QuietMeant(h, h');
    }
  }

  /** While a read is under way the underlying file is the expected one, unless a buffer was not written in full. */
  lemma ReadingUpToDate(h: Handle)
    requires Meant(h) && Reading(h.pc) && h.lost == {}
    ensures h.file == h.expected
  {
    assert TrimmedQueue(h.w.queue, |h.reports|) == [] && W.Flatten([]) == [];
    assert Remaining(h) == h.w.buffers;
    W.EmptyBuffersMeanNothing(h.file, h.w.buffers);
  }

  // ------------------------------------------------------------------------
  // The cache
  // ------------------------------------------------------------------------

  lemma DisturbedCached(limits: Limits, h: Handle, h': Handle)
    requires Cached(limits, h) && h'.c == Disturbed(h, h'.w) && (h'.pc == h.pc || !Reading(h'.pc))
    ensures Cached(limits, h')
  {
  }

  lemma StartReadCached(limits: Limits, h: Handle, env: R.Circumstances, h': Handle)
    requires Cached(limits, h) && StartRead(limits, h, env, h')
    ensures Cached(limits, h')
  {
    R.LookupSound(limits.read, h.c, h.pc.next.offset, h.pc.next.size, env);
    hide R.Lookup, R.Sound, R.Serves;
  }

  lemma PrefetchCached(limits: Limits, h: Handle, h': Handle)
    requires Cached(limits, h) && PrefetchMore(h, h')
    ensures Cached(limits, h')
  {
    R.PrefetchSound(limits.read, h.c, h.pc.offset, h.pc.continuous, h.w.queue != []);
  }

  lemma ArriveCached(limits: Limits, h: Handle, id: nat, status: R.Status, h': Handle)
    requires Cached(limits, h) && FetchDone(h, id, status, h')
    ensures Cached(limits, h')
  {
    R.ArriveSound(limits.read, h.c, id, status);
  }

  lemma QuietCached(limits: Limits, h: Handle, h': Handle)
    requires Cached(limits, h) && (h'.pc == h.pc || !Reading(h'.pc))
    requires h'.c == h.c || (h'.c == h.c.(clear := true) && !h'.pc.Prefetching?)
    ensures Cached(limits, h')
  {
  }

  lemma MovesDisturb(limits: Limits, h: Handle, h': Handle)
    requires ClientWrite(limits, h, h') || ClientSync(h, h') || TimerFlush(h, h')
    ensures h'.c == Disturbed(h, h'.w) && (h'.pc == h.pc || !Reading(h'.pc))
  {
    hide W.Accounted, W.Write, W.Push, W.Sync, Disturbed, WriteAt;
  }

  lemma OthersLeaveCache(limits: Limits, h: Handle, h': Handle)
    requires Step(limits, h, h') && (Reading(h.pc) ==> h.w.queue == [])
    requires !ClientWrite(limits, h, h') && !ClientSync(h, h') && !TimerFlush(h, h') && !PrefetchMore(h, h')
    requires !(exists env :: StartRead(limits, h, env, h')) && !(exists id, status :: FetchDone(h, id, status, h'))
    ensures h'.pc == h.pc || !Reading(h'.pc)
    ensures h'.c == h.c || (h'.c == h.c.(clear := true) && !h'.pc.Prefetching?)
  {
    hide ClientWrite, ClientSync, TimerFlush, PrefetchMore, StartRead, FetchDone, WriteAt, PassesOver, Outcome, R.Serve;
  }

  lemma CachedStep(limits: Limits, h: Handle, h': Handle)
    requires Booked(h) && Cached(limits, h) && Step(limits, h, h')
    ensures Cached(limits, h')
  {
    assert Reading(h.pc) ==> h.w.queue == [];
    hide Booked, Cached, Step, ClientWrite, ClientSync, TimerFlush, PrefetchMore, StartRead, FetchDone, Disturbed;
    if ClientWrite(limits, h, h') || ClientSync(h, h') || TimerFlush(h, h') {
      MovesDisturb(limits, h, h');
      DisturbedCached(limits, h, h');
    } else if env :| StartRead(limits, h, env, h') {
      StartReadCached(limits, h, env, h');
    } else if PrefetchMore(h, h') {
      PrefetchCached(limits, h, h');
    } else if id, status :| FetchDone(h, id, status, h') {
      ArriveCached(limits, h, id, status, h');
    } else {
      OthersLeaveCache(limits, h, h');
      QuietCached(limits, h, h');
    }
  }

  lemma DisturbedCoherent(h: Handle, h': Handle)
    requires Coherent(h) && h'.c == Disturbed(h, h'.w) && h'.file == h.file && h'.tainted == h.tainted
    requires h'.w.pushed != h.w.pushed ==> h'.w.queue != [] && !h'.pc.Waiting?
    requires h'.w.pushed == h.w.pushed ==> h'.w.queue == h.w.queue
    requires h'.pc == h.pc || !Reading(h'.pc)
    ensures Coherent(h')
  {
  }

  lemma FlushCoherent(h: Handle, h': Handle)
    requires Booked(h) && Booked(h') && Coherent(h) && TimerFlush(h, h')
    ensures Coherent(h')
  {
    W.PushQueue(h.w, []);
    DisturbedCoherent(h, h');
  }

  lemma OperationCoherent(limits: Limits, h: Handle, h': Handle)
    requires Booked(h) && Booked(h') && Coherent(h) && (ClientWrite(limits, h, h') || ClientSync(h, h'))
    ensures Coherent(h')
  {
    if ClientWrite(limits, h, h') {
      var offset: nat, data: Bytes, flushBps: nat, confirmBps: nat :|
        WriteStep(limits, h, offset, data, flushBps, confirmBps, h');
      W.WriteQueue(h.w, limits.write, offset, data, flushBps, confirmBps, []);
    } else {
      W.SyncQueue(h.w, []);
    }
    hide W.Write, W.Sync, W.Accounted;
    DisturbedCoherent(h, h');
  }

  lemma StartReadCoherent(limits: Limits, h: Handle, env: R.Circumstances, h': Handle)
    requires Booked(h) && Cached(limits, h) && Coherent(h) && StartRead(limits, h, env, h')
    ensures Coherent(h')
  {
    SyncedQueueEmpty(h);
    R.LookupKeeps(limits.read, h.c, h.pc.next.offset, h.pc.next.size, env);
    hide R.Lookup, Booked, R.Sound;
    if !h'.tainted {
      forall i | 0 <= i < |h'.c.cache| && h'.c.cache[i] < |h'.c.entries|
        ensures R.Faithful(h'.c.entries[h'.c.cache[i]], h'.file)
      {
        var id := h'.c.cache[i];
        if id < |h.c.entries| {
          assert h'.c.entries[id] == h.c.entries[id];
        }
      }
    }
  }

  lemma PrefetchCoherent(limits: Limits, h: Handle, h': Handle)
    requires Booked(h) && Cached(limits, h) && Coherent(h) && PrefetchMore(h, h')
    ensures Coherent(h')
  {
    hide W.Accounted;
  }

  lemma ArriveCoherent(h: Handle, id: nat, status: R.Status, h': Handle)
    requires Coherent(h) && FetchDone(h, id, status, h')
    ensures Coherent(h')
  {
  }

  lemma QuietCoherent(h: Handle, h': Handle)
    requires Coherent(h)
    requires h'.w.queue != [] || h'.c.clear || h'.tainted
             || (h'.c == h.c && h'.file == h.file && h'.w == h.w && h'.tainted == h.tainted)
    requires h'.pc.Waiting? ==>
               || h'.tainted
               || (h'.pc == h.pc && h'.c.entries == h.c.entries && h'.file == h.file && h'.tainted == h.tainted)
    ensures Coherent(h')
  {
  }

  lemma CoherentStep(limits: Limits, h: Handle, h': Handle)
    requires Booked(h) && Booked(h') && Cached(limits, h) && Coherent(h) && Step(limits, h, h')
    ensures Coherent(h')
  {
    assert Reading(h.pc) ==> h.w.queue == [];
    hide Booked, Cached, Coherent, W.Accounted, W.Write, W.Push, W.Sync, R.Lookup, R.Arrive, R.Prefetch, R.Serve;
    if ClientWrite(limits, h, h') || ClientSync(h, h') {
      OperationCoherent(limits, h, h');
    } else if TimerFlush(h, h') {
      FlushCoherent(h, h');
    } else if env :| StartRead(limits, h, env, h') {
      StartReadCoherent(limits, h, env, h');
    } else if PrefetchMore(h, h') {
      PrefetchCoherent(limits, h, h');
    } else if id, status :| FetchDone(h, id, status, h') {
      ArriveCoherent(h, id, status, h');
    } else {
      QuietCoherent(h, h');
    }
  }

  // ------------------------------------------------------------------------
  // Answers
  // ------------------------------------------------------------------------

  lemma NoAnswer(limits: Limits, h: Handle, h': Handle)
    requires Step(limits, h, h') && !ReadReturns(h, h')
    ensures h'.answers == h.answers
  {
    hide ReadReturns, W.Accounted, W.Write, W.Push, W.Sync, R.Lookup, R.Arrive, R.Prefetch, PassesOver, Outcome;
  }

  lemma ReturnAnswered(limits: Limits, h: Handle, h': Handle)
    requires Meant(h) && Cached(limits, h) && Coherent(h) && Answered(h) && ReadReturns(h, h')
    ensures Answered(h')
  {
    var e := h.c.entries[h.pc.id];
    if !h.tainted {
      R.ServeIsPrefix(e, h.file, h.pc.offset, h.pc.size);
    }
    if h.lost == {} {
      ReadingUpToDate(h);
    }
    hide R.Serve, Cached, Coherent, Booked, ApplyAll, ReadAt;
  }

  lemma AnsweredStep(limits: Limits, h: Handle, h': Handle)
    requires Meant(h) && Cached(limits, h) && Coherent(h) && Answered(h) && Step(limits, h, h')
    ensures Answered(h')
  {
    hide Meant, Cached, Coherent, Step, ReadReturns;
    if ReadReturns(h, h') {
      ReturnAnswered(limits, h, h');
    } else {
      NoAnswer(limits, h, h');
    }
  }

  // ------------------------------------------------------------------------
  // Every run
  // ------------------------------------------------------------------------

  ghost predicate Inv(limits: Limits, h: Handle) {
    Meant(h) && Cached(limits, h) && Coherent(h) && Answered(h)
  }

  lemma InitInv(limits: Limits, h: Handle)
    requires Init(h) && limits.read.Valid()
    ensures Inv(limits, h)
  {
    assert W.Outstanding(W.EMPTY) == [];
  }

  lemma {:induction false} RunInv(limits: Limits, run: seq<Handle>, i: nat)
    requires Run(limits, run) && i < |run|
    ensures Inv(limits, run[i])
  {
    if i == 0 {
      InitInv(limits, run[0]);
    } else {
      RunInv(limits, run, i - 1);
      var h, h' := run[i - 1], run[i - 1 + 1];
      assert Step(limits, h, h');
      hide Step, Cached, Coherent, Answered, Booked;
      MeantStep(limits, h, h');
      CachedStep(limits, h, h');
      CoherentStep(limits, h, h');
      AnsweredStep(limits, h, h');
    }
  }

  /**
   * In every state of every run the write buffer's counters are its queues' sums,
   * the cache holds at most two blocks in order and a block size within its
   * limits, and while an fsync is awaited nothing is left in the buffer.
   */
  lemma HandleStaysSound(limits: Limits, run: seq<Handle>, i: nat)
    requires Run(limits, run) && i < |run|
    ensures W.Accounted(run[i].w) && R.Sound(limits.read, run[i].c)
    ensures run[i].completed + |run[i].w.queue| == run[i].w.pushed
    ensures run[i].pc.Syncing? || Reading(run[i].pc) ==> run[i].w.bufferedSize == 0
    ensures Reading(run[i].pc) ==> run[i].w.queue == []
  {
    RunInv(limits, run, i);
  }

  /**
   * In every run, a read that returned bytes returned a front part of the requested
   * slice of the underlying file, non-empty unless that file ends before the
   * offset, if no batch failed since the cache was last told to clear; and a front
   * part of the file obtained by applying all earlier writes in order, if besides
   * every write was made in full.
   */
  lemma ReadYourWrites(limits: Limits, run: seq<Handle>, i: nat, a: Answer)
    requires Run(limits, run) && i < |run| && a in run[i].answers
    ensures !a.tainted ==> ReadOf(a, a.file)
    ensures !a.tainted && a.lost == {} ==> ReadOf(a, a.expected)
    ensures a.failed == {} ==> !a.tainted
  {
    RunInv(limits, run, i);
  }
}
