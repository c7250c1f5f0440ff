/**
 * A fetch that failed stays in the cache: its error answers every read that the
 * block covers, and the underlying file is not asked again.
 */
module BrokenBlock {
  import opened Wrappers
  import opened BufferedHandle
  import opened QuietReads
  import W = WriteBuffering
  import R = ReadCaching
  import F = FailedBatch

  /** No write is accepted, the cache is not told to clear, and only bytes the block covers are read. */
  ghost predicate Retries(limits: Limits, id: nat, h: Handle, h': Handle) {
    && WriteFree(limits, h, h') && !ClearCache(h, h')
    && (Reading(h'.pc) ==> id < |h'.c.entries| && h'.c.entries[id].Reaches(h'.pc.offset))
  }

  /** The block is cached, its fetch has failed and no write is outstanding. */
  ghost predicate Holds(h: Handle, id: nat, errno: nat) {
    && h.w.queue == [] && h.w.bufferedSize == 0 && !h.c.clear
    && id in h.c.cache && id < |h.c.entries| && h.c.entries[id].status == R.Broken(errno)
  }

  ghost predicate AnswersFail(h0: Handle, h: Handle, errno: nat) {
    |h0.answers| <= |h.answers| && forall k :: |h0.answers| <= k < |h.answers| ==> h.answers[k].value == Err(errno)
  }

  ghost predicate Stuck(limits: Limits, h0: Handle, h: Handle, id: nat, errno: nat) {
    && Booked(h) && Cached(limits, h) && Holds(h, id, errno) && AnswersFail(h0, h, errno)
    && (h.pc.Prefetching? ==> h.c.cache[0] == id)
    && (h.pc.Waiting? ==> h.pc.id == id)
  }

  lemma StartReadStuck(limits: Limits, h: Handle, env: R.Circumstances, h': Handle, id: nat, errno: nat)
    requires Cached(limits, h) && Holds(h, id, errno) && StartRead(limits, h, env, h') && Retries(limits, id, h, h')
    ensures Holds(h', id, errno) && h'.answers == h.answers
    ensures h'.pc.Prefetching? ==> h'.c.cache != [] && h'.c.cache[0] == id
    ensures h'.pc.Waiting? ==> h'.pc.id == id
  {
    var i :| 0 <= i < |h.c.cache| && h.c.cache[i] == id;
    var offset, size := h.pc.next.offset, h.pc.next.size;
    R.LookupFront(limits.read, h.c, offset, size, env);
    R.LookupKeeps(limits.read, h.c, offset, size, env);
    hide R.Lookup;
    assert h'.c.entries[id] == h.c.entries[id];
    R.LookupFinds(limits.read, h.c, offset, size, env, i);
  }

  lemma PrefetchStuck(h: Handle, h': Handle, id: nat, errno: nat)
    requires Holds(h, id, errno) && PrefetchMore(h, h') && h.c.cache[0] == id
    ensures Holds(h', id, errno) && h'.answers == h.answers && h'.pc.Waiting? && h'.pc.id == id
  {
  }

  lemma OthersStuck(limits: Limits, h: Handle, h': Handle, id: nat, errno: nat)
    requires Booked(h) && Holds(h, id, errno) && WriteFree(limits, h, h') && !ClearCache(h, h')
    requires !(exists env :: StartRead(limits, h, env, h')) && !PrefetchMore(h, h') && !ReadReturns(h, h')
    ensures Holds(h', id, errno) && h'.answers == h.answers && (h'.pc == h.pc || !Reading(h'.pc))
    ensures h.c.cache == h'.c.cache
  {
    if ClientSync(h, h') {
      SyncIdles(h, h');
    } else if fetched, status :| FetchDone(h, fetched, status, h') {
      hide ClientWrite, ClientSync, StartRead, PrefetchMore, ReadReturns;
    } else {
      hide ClientSync, StartRead, PrefetchMore, ReadReturns, FetchDone, Booked;
      OtherStepsIdle(limits, h, h');
      KeepsUncleared(limits, h, h');
    }
  }

  lemma KeepsUncleared(limits: Limits, h: Handle, h': Handle)
    requires h.w.queue == [] && h.w.bufferedSize == 0 && WriteFree(limits, h, h') && !ClearCache(h, h')
    requires !ClientSync(h, h') && !(exists env :: StartRead(limits, h, env, h')) && !PrefetchMore(h, h')
    requires !ReadReturns(h, h') && !(exists id, status :: FetchDone(h, id, status, h'))
    ensures h'.c == h.c && (h'.pc == h.pc || !Reading(h'.pc))
  {
    hide ClientWrite, ClientSync, StartRead, PrefetchMore, ReadReturns, FetchDone;
  }

  lemma StuckStep(limits: Limits, h0: Handle, h: Handle, h': Handle, id: nat, errno: nat)
    requires Stuck(limits, h0, h, id, errno) && Retries(limits, id, h, h')
    ensures Stuck(limits, h0, h', id, errno)
  {
    BookedStep(limits, h, h');
    CachedStep(limits, h, h');
    hide Booked, WriteFree, R.Lookup, R.Prefetch;
    if ReadReturns(h, h') {
      hide Cached;
    } else if env :| StartRead(limits, h, env, h') {
      StartReadStuck(limits, h, env, h', id, errno);
      hide Cached, StartRead;
    } else if PrefetchMore(h, h') {
      PrefetchStuck(h, h', id, errno);
      hide Cached, PrefetchMore;
    } else {
      OthersStuck(limits, h, h', id, errno);
      hide Cached, Holds, Retries;
    }
  }

  ghost predicate RetryPath(limits: Limits, id: nat, path: seq<Handle>) {
    path != [] && forall i :: 0 <= i < |path| - 1 ==> Retries(limits, id, path[i], path[i + 1])
  }

  lemma {:induction false} StuckPath(limits: Limits, path: seq<Handle>, i: nat, id: nat, errno: nat)
    requires RetryPath(limits, id, path) && i < |path| && Stuck(limits, path[0], path[0], id, errno)
    ensures Stuck(limits, path[0], path[i], id, errno)
  {
    hide Stuck, Retries;
    if i == 0 {
    } else {
      StuckPath(limits, path, i - 1, id, errno);
      assert Retries(limits, id, path[i - 1], path[i - 1 + 1]);
      StuckStep(limits, path[0], path[i - 1], path[i], id, errno);
    }
  }

  /**
   * From every reachable state with no write outstanding and such a block cached:
   * as long as there is no write, no clear and no read outside the block, every
   * answer is its error, however often the client tries and whatever the file holds.
   */
  lemma BrokenBlockSticks(
    limits: Limits, run: seq<Handle>, i: nat, id: nat, errno: nat, path: seq<Handle>, j: nat, k: nat)
    requires Run(limits, run) && i < |run| && Quiet(run[i]) && Holds(run[i], id, errno)
    requires RetryPath(limits, id, path) && path[0] == run[i] && j < |path|
    requires |run[i].answers| <= k < |path[j].answers|
    ensures path[j].answers[k].value == Err(errno)
  {
    RunInv(limits, run, i);
    hide Run, RetryPath, Booked, Cached, Holds;
    StuckPath(limits, path, j, id, errno);
  }

  // ------------------------------------------------------------------------
  // An example
  // ------------------------------------------------------------------------

  const BROKEN := R.CacheState([R.Entry(0, 1, 1, R.Broken(5), false)], [0], false, 0, 1.0)
  const REFUSED := Answer(0, 1, Err(5), [1], [1], {}, {}, false)
  const LEFT := F.START.(c := BROKEN, answers := [REFUSED])

  ghost function BrokenRun(): seq<Handle> {
    [F.START,
     F.START.(pc := Syncing([], F.READ)),
     F.START.(c := F.FETCHING, pc := Prefetching(0, 1, 1)),
     F.START.(c := F.FETCHING, pc := Waiting(0, 0, 1)),
     F.START.(c := BROKEN, pc := Waiting(0, 0, 1)),
     LEFT]
  }

  lemma FetchFails()
    ensures Step(F.LIMITS, BrokenRun()[3], BrokenRun()[4])
  {
    assert R.Arrive(F.FETCHING, 0, R.Broken(5)) == BROKEN;
    assert FetchDone(BrokenRun()[3], 0, R.Broken(5), BrokenRun()[4]);
    hide ClientWrite, ClientSync, StartRead, PrefetchMore, ReadReturns, TimerFlush, UnderlyingWrite;
  }

  lemma ReadFails()
    ensures Step(F.LIMITS, BrokenRun()[4], LEFT)
  {
    assert ReadReturns(BrokenRun()[4], LEFT);
    hide ClientWrite, ClientSync, StartRead, PrefetchMore, FetchDone, TimerFlush, UnderlyingWrite;
  }

  lemma BrokenSteps(i: nat)
    requires i < 5
    ensures Step(F.LIMITS, BrokenRun()[i], BrokenRun()[i + 1])
  {
    hide Step;
    if i == 0 {
      assert W.Accounted(F.START.w);
      F.SyncWithNothingBuffered(F.START);
    } else if i == 1 {
      F.FirstReadMisses();
    } else if i == 2 {
      F.FirstReadFetches();
    } else if i == 3 {
      FetchFails();
    } else {
      ReadFails();
    }
  }

  /** One fetch fails, and from then on the first byte of a readable file cannot be read. */
  lemma OneFailureStays()
    ensures Run(F.LIMITS, BrokenRun()) && BrokenRun()[5] == LEFT && Quiet(LEFT) && LEFT.file == [1]
    ensures Holds(LEFT, 0, 5) && R.BrokenAt(LEFT.c, 0)
  {
    var run := BrokenRun();
    assert Init(run[0]) && |run| == 6;
    hide Step, Init;
    forall i | 0 <= i < |run| - 1 ensures Step(F.LIMITS, run[i], run[i + 1]) {
      hide BrokenRun;
      BrokenSteps(i);
    }
    assert R.BrokenReaching(BROKEN.entries[BROKEN.cache[0]], 0);
  }
}
