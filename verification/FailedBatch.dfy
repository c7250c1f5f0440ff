/**
 * Why failed writes have to be excluded: a run in which a batch reaches the file
 * but is reported as failed, so that the read cache is not cleared and the next
 * read is answered from before the write.
 */
module FailedBatch {
  import opened Wrappers
  import opened FlatFile
  import opened MultiWrite
  import opened BufferedHandle
  import W = WriteBuffering
  import R = ReadCaching

  const LIMITS := Limits(W.Limits(10, 10), R.Limits(0, 0, 1.0))
  const BUFFER := Buffer(0, [2])
  const PUSHED := W.WriteState([], 0, 1, [], 0, [[BUFFER]], 1)
  const FETCHING := R.CacheState([R.Entry(0, 1, 1, R.Pending, false)], [0], false, 0, 1.0)
  const FETCHED := R.CacheState([R.Entry(0, 1, 1, R.Ready([1]), false)], [0], false, 0, 1.0)
  const READ := ThenRead(0, 1, 1)
  const EIO := Report.Failed(5)

  const FIRST := Answer(0, 1, Ok([1]), [1], [1], {}, {}, false)
  const STALE := Answer(0, 1, Ok([1]), [2], [2], {0}, {}, true)

  const START := Handle([1], W.EMPTY, [], 0, {}, {}, false, R.EMPTY, Idle, [1], [])
  const ANSWERED := START.(c := FETCHED, answers := [FIRST])
  const WRITTEN := ANSWERED.(w := W.WriteState([BUFFER], 1, 1, [], 0, [], 0), expected := [2])
  const FAILED := ANSWERED.(file := [2], w := W.WriteState([], 0, 1, [], 0, [], 1),
                            completed := 1, failed := {0}, tainted := true, expected := [2])

  lemma SyncWithNothingBuffered(h: Handle)
    requires h.pc.Idle? && W.Accounted(h.w) && h.w.bufferedSize == 0 && h.w.confirmations == []
    ensures Step(LIMITS, h, h.(pc := Syncing([], READ)))
  {
    hide W.Accounted;
    assert W.Popped(h.w, 0) == h.w;
    assert ClientSync(h, h.(pc := Syncing([], READ)));
  }

  lemma ReadFront(h: Handle)
    requires h.pc == Waiting(0, 0, 1) && h.c == FETCHED
    ensures var a := Answer(0, 1, Ok([1]), h.file, h.expected, h.failed, h.lost, h.tainted);
            Step(LIMITS, h, h.(pc := Idle, answers := h.answers + [a]))
  {
    var a := Answer(0, 1, Ok([1]), h.file, h.expected, h.failed, h.lost, h.tainted);
    assert R.Serve(FETCHED.entries[0], 0, 1) == Ok([1]);
    assert ReadReturns(h, h.(pc := Idle, answers := h.answers + [a]));
  }

  /** The first read fetches the block [1]. */
  lemma FirstReadMisses()
    ensures Step(LIMITS, START.(pc := Syncing([], READ)), START.(c := FETCHING, pc := Prefetching(0, 1, 1)))
  {
    var env := R.Circumstances(0, false, false);
    R.LookupOfNothing(LIMITS.read, R.EMPTY, 0, 1);
    hide R.Lookup;
    assert R.Lookup(LIMITS.read, R.EMPTY, 0, 1, env) == FETCHING;
    assert !R.Hit(R.EMPTY, 0, env);
    assert StartRead(LIMITS, START.(pc := Syncing([], READ)), env, START.(c := FETCHING, pc := Prefetching(0, 1, 1)));
    hide StartRead, ClientWrite, ClientSync, PrefetchMore, ReadReturns, FetchDone, TimerFlush, UnderlyingWrite;
  }

  lemma FirstReadFetches()
    ensures Step(LIMITS, START.(c := FETCHING, pc := Prefetching(0, 1, 1)),
                 START.(c := FETCHING, pc := Waiting(0, 0, 1)))
    ensures Step(LIMITS, START.(c := FETCHING, pc := Waiting(0, 0, 1)), START.(c := FETCHED, pc := Waiting(0, 0, 1)))
  {
    assert R.Prefetch(FETCHING, 0, 1, false) == FETCHING;
    assert PrefetchMore(START.(c := FETCHING, pc := Prefetching(0, 1, 1)),
                        START.(c := FETCHING, pc := Waiting(0, 0, 1)));
    assert ReadAt([1], 0, 1) == [1];
    assert R.Arrive(FETCHING, 0, R.Ready([1])) == FETCHED;
    assert FetchDone(START.(c := FETCHING, pc := Waiting(0, 0, 1)), 0, R.Ready([1]),
                     START.(c := FETCHED, pc := Waiting(0, 0, 1)));
  }

  /** The write of [2] is buffered. */
  lemma WriteIsBuffered()
    ensures Step(LIMITS, ANSWERED, WRITTEN.(pc := Writing([])))
    ensures Step(LIMITS, WRITTEN.(pc := Writing([])), WRITTEN)
    ensures W.Accounted(WRITTEN.w)
  {
    W.AppendAccounted(W.EMPTY, 0, [2]);
    assert W.Append(W.EMPTY, 0, [2]) == WRITTEN.w;
    hide W.Accounted;
    assert WriteAt([1], 0, [2]) == [2];
    assert WriteStep(LIMITS, ANSWERED, 0, [2], 0, 0, WRITTEN.(pc := Writing([])));
    assert ClientWrite(LIMITS, ANSWERED, WRITTEN.(pc := Writing([])));
    assert WriteReturns(WRITTEN.(pc := Writing([])), WRITTEN);
  }

  /** The next read pushes it. */
  lemma WriteIsPushed()
    ensures Step(LIMITS, WRITTEN, WRITTEN.(w := PUSHED, pc := Syncing([0], READ)))
  {
    WriteIsBuffered();
    W.PushAccounted(WRITTEN.w);
    var pushed := W.Push(WRITTEN.w);
    W.ConfirmAccounted(pushed, 0);
    W.SyncLeavesNothing(WRITTEN.w);
    hide W.Accounted, W.Confirm;
    var (w, waits) := W.Sync(WRITTEN.w);
    assert w == PUSHED && waits == [0];
    assert Torn(FETCHED.entries) == FETCHED.entries;
    assert ClientSync(WRITTEN, WRITTEN.(w := PUSHED, pc := Syncing([0], READ)));
  }

  /** It reaches the file but is reported as failed. */
  lemma WriteIsLost()
    ensures Step(LIMITS, WRITTEN.(w := PUSHED, pc := Syncing([0], READ)),
                 WRITTEN.(file := [2], w := PUSHED, reports := [EIO], pc := Syncing([0], READ)))
    ensures Step(LIMITS, WRITTEN.(file := [2], w := PUSHED, reports := [EIO], pc := Syncing([0], READ)),
                 FAILED.(pc := Syncing([0], READ)))
    ensures Step(LIMITS, FAILED.(pc := Syncing([0], READ)), FAILED)
  {
    assert WriteAt([1], 0, [2][..1]) == [2];
    assert UnderlyingWrite(WRITTEN.(w := PUSHED, pc := Syncing([0], READ)), 1, EIO,
                           WRITTEN.(file := [2], w := PUSHED, reports := [EIO], pc := Syncing([0], READ)));
    assert Chain([BUFFER], [EIO], 0) == Progress(Ok(0), []);
    assert Chain([BUFFER], [EIO], 1).value == Err(5);
    assert BatchFails(WRITTEN.(file := [2], w := PUSHED, reports := [EIO], pc := Syncing([0], READ)),
                      FAILED.(pc := Syncing([0], READ)));
    assert 0 in FAILED.(pc := Syncing([0], READ)).pc.waits;
    assert SyncFails(FAILED.(pc := Syncing([0], READ)), FAILED);
  }

  /** The read after it finds the old block. */
  lemma StaleReadHits()
    ensures Step(LIMITS, FAILED.(pc := Syncing([], READ)), FAILED.(pc := Waiting(0, 0, 1)))
  {
    var env := R.Circumstances(0, false, false);
    assert R.Current(FETCHED, env) == FETCHED;
    assert R.IsCurrentRead(FETCHED, 0);
    assert StartRead(LIMITS, FAILED.(pc := Syncing([], READ)), env, FAILED.(pc := Waiting(0, 0, 1)));
  }

  function StaleRun(): seq<Handle> {
    [START,
     START.(pc := Syncing([], READ)),
     START.(c := FETCHING, pc := Prefetching(0, 1, 1)),
     START.(c := FETCHING, pc := Waiting(0, 0, 1)),
     START.(c := FETCHED, pc := Waiting(0, 0, 1)),
     ANSWERED,
     WRITTEN.(pc := Writing([])),
     WRITTEN,
     WRITTEN.(w := PUSHED, pc := Syncing([0], READ)),
     WRITTEN.(file := [2], w := PUSHED, reports := [EIO], pc := Syncing([0], READ)),
     FAILED.(pc := Syncing([0], READ)),
     FAILED,
     FAILED.(pc := Syncing([], READ)),
     FAILED.(pc := Waiting(0, 0, 1)),
     FAILED.(answers := [FIRST, STALE])]
  }

  lemma EarlySteps(i: nat)
    requires i < 7
    ensures Step(LIMITS, StaleRun()[i], StaleRun()[i + 1])
  {
    hide Step;
    if i == 0 {
      assert W.Accounted(START.w);
      SyncWithNothingBuffered(START);
    } else if i == 1 {
      FirstReadMisses();
    } else if i < 4 {
      FirstReadFetches();
    } else if i == 4 {
      assert START.answers + [FIRST] == [FIRST];
      ReadFront(START.(c := FETCHED, pc := Waiting(0, 0, 1)));
    } else {
      WriteIsBuffered();
    }
  }

  lemma LateSteps(i: nat)
    requires 7 <= i < 14
    ensures Step(LIMITS, StaleRun()[i], StaleRun()[i + 1])
  {
    hide Step;
    if i == 7 {
      WriteIsPushed();
    } else if i < 11 {
      WriteIsLost();
    } else if i == 11 {
      assert W.Accounted(FAILED.w);
      SyncWithNothingBuffered(FAILED);
    } else if i == 12 {
      StaleReadHits();
    } else {
      assert FAILED.answers + [STALE] == [FIRST, STALE];
      ReadFront(FAILED.(pc := Waiting(0, 0, 1)));
    }
  }

  /** After a failed batch a read may be answered with bytes the file no longer holds. */
  lemma FailedBatchServesStaleData()
    ensures Run(LIMITS, StaleRun())
    ensures STALE in StaleRun()[14].answers && !ReadOf(STALE, STALE.file)
  {
    var run := StaleRun();
    assert Init(run[0]) && |run| == 15;
    hide Step, Init;
    forall i | 0 <= i < |run| - 1 ensures Step(LIMITS, run[i], run[i + 1]) {
      hide StaleRun;
      if i < 7 {
        EarlySteps(i);
      } else {
        LateSteps(i);
      }
    }
    assert ReadAt(STALE.file, 0, 1) == [2] && STALE.value.value[0] != ReadAt(STALE.file, 0, 1)[0];
  }
}
