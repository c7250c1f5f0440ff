/**
 * A write that reaches the storage only in part and says so: multiwrite goes on,
 * the batch is confirmed, fsync succeeds, and the bytes are gone.
 */
module ShortWrite {
  import opened Wrappers
  import opened FlatFile
  import opened MultiWrite
  import opened BufferedHandle
  import opened QuietReads
  import W = WriteBuffering
  import R = ReadCaching

  const LIMITS := Limits(W.Limits(10, 10), R.Limits(0, 0, 1.0))
  const BUFFER := Buffer(0, [2])
  const BUFFERED := W.WriteState([BUFFER], 1, 1, [], 0, [], 0)
  const PUSHED := W.WriteState([], 0, 1, [], 0, [[BUFFER]], 1)

  const START := Handle([], W.EMPTY, [], 0, {}, {}, false, R.EMPTY, Idle, [], [])
  const WRITTEN := START.(w := BUFFERED, expected := [2])
  const SYNCING := WRITTEN.(w := PUSHED, pc := Syncing([0], ThenClear))
  const SHORT := SYNCING.(reports := [Wrote(0)], lost := {0})
  const CONFIRMED := SYNCING.(w := PUSHED.(queue := []), completed := 1, lost := {0}, c := R.EMPTY.(clear := true))
  const SYNCED := CONFIRMED.(pc := Idle)

  lemma WriteIsBuffered()
    ensures Step(LIMITS, START, WRITTEN.(pc := Writing([])))
    ensures Step(LIMITS, WRITTEN.(pc := Writing([])), WRITTEN)
    ensures W.Accounted(BUFFERED)
  {
    W.AppendAccounted(W.EMPTY, 0, [2]);
    assert W.Append(W.EMPTY, 0, [2]) == BUFFERED;
    hide W.Accounted;
    assert WriteAt([], 0, [2]) == [2];
    assert WriteStep(LIMITS, START, 0, [2], 0, 0, WRITTEN.(pc := Writing([])));
    assert ClientWrite(LIMITS, START, WRITTEN.(pc := Writing([])));
    assert WriteReturns(WRITTEN.(pc := Writing([])), WRITTEN);
  }

  lemma WriteIsPushed()
    ensures Step(LIMITS, WRITTEN, SYNCING)
  {
    WriteIsBuffered();
    W.PushAccounted(BUFFERED);
    W.SyncLeavesNothing(BUFFERED);
    hide W.Accounted, W.Confirm;
    W.ConfirmAccounted(W.Push(BUFFERED), 0);
    var (w, waits) := W.Sync(BUFFERED);
    assert w == PUSHED && waits == [0];
    assert Torn([]) == [];
    assert ClientSync(WRITTEN, SYNCING);
  }

  /** Nothing of the buffer is written, which is reported, confirmed and forgotten. */
  lemma WriteIsShort()
    ensures UnderlyingWrite(SYNCING, 0, Wrote(0), SHORT)
  {
    assert WriteAt([], 0, [2][..0]) == [];
    assert Chain([BUFFER], [], 0) == Progress(Ok(0), []);
  }

  lemma WriteIsConfirmed()
    ensures BatchDone(SHORT, CONFIRMED) && ClearCache(CONFIRMED, SYNCED)
  {
    assert Chain([BUFFER], [Wrote(0)], 0) == Progress(Ok(0), []);
    assert Chain([BUFFER], [Wrote(0)], 1).value == Ok(0);
  }

  lemma LateSteps()
    ensures Step(LIMITS, SYNCING, SHORT) && Step(LIMITS, SHORT, CONFIRMED) && Step(LIMITS, CONFIRMED, SYNCED)
  {
    WriteIsShort();
    WriteIsConfirmed();
    hide UnderlyingWrite, BatchDone, ClearCache, ClientWrite, ClientSync, StartRead, PrefetchMore, ReadReturns;
    hide FetchDone, BatchFails, TimerFlush, WriteReturns, SyncFails;
  }

  function ShortRun(): seq<Handle> {
    [START, WRITTEN.(pc := Writing([])), WRITTEN, SYNCING, SHORT, CONFIRMED, SYNCED]
  }

  lemma ShortSteps(i: nat)
    requires i < 6
    ensures Step(LIMITS, ShortRun()[i], ShortRun()[i + 1])
  {
    hide Step;
    if i < 2 {
      WriteIsBuffered();
    } else if i == 2 {
      WriteIsPushed();
    } else {
      LateSteps();
    }
  }

  /** No batch failed and fsync returned, but what was written is not what will be read. */
  lemma ShortWriteLosesData()
    ensures Run(LIMITS, ShortRun()) && Quiet(SYNCED) && SYNCED.failed == {}
    ensures !ReadsRight(LIMITS, SYNCED, SYNCED.expected)
  {
    var run := ShortRun();
    assert Init(run[0]) && |run| == 7 && run[6] == SYNCED;
    hide Step, Init, ReadsRight;
    forall i | 0 <= i < |run| - 1 ensures Step(LIMITS, run[i], run[i + 1]) {
      hide ShortRun;
      ShortSteps(i);
    }
    ReadsRightExactly(LIMITS, run, 6, SYNCED.expected);
  }
}
