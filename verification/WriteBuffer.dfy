/**
 * The write-behind buffer: adjacent writes are coalesced, batches are pushed to
 * the underlying file in order, and confirmations are awaited first in, first out.
 */
module WriteBuffering {
  import opened FlatFile
  import opened MultiWrite

  datatype Limits = Limits(minSize: nat, maxSize: nat)

  /** The confirmation future of one pushed batch. */
  datatype Confirmation = Confirmation(size: nat, batch: nat)

  /** queue holds the pushed batches whose underlying writes have not completed. */
  datatype WriteState = WriteState(
    buffers: seq<Buffer>, bufferedSize: nat, nextOffset: nat,
    confirmations: seq<Confirmation>, pendingConfirmation: nat,
    queue: seq<seq<Buffer>>, pushed: nat)

  const EMPTY := WriteState([], 0, 0, [], 0, [], 0)

  // ------------------------------------------------------------------------
  // Operations
  // ------------------------------------------------------------------------

  function Append(w: WriteState, offset: nat, data: Bytes): WriteState {
    var buffers :=
      if w.buffers == [] || w.nextOffset != offset then w.buffers + [Buffer(offset, data)]
      else
        var n := |w.buffers| - 1;
        w.buffers[n := Buffer(w.buffers[n].offset, w.buffers[n].data + data)];
    w.(buffers := buffers, bufferedSize := w.bufferedSize + |data|, nextOffset := offset + |data|)
  }

  function Push(w: WriteState): WriteState {
    if w.bufferedSize == 0 then w
    else w.(buffers := [], bufferedSize := 0,
            confirmations := w.confirmations + [Confirmation(w.bufferedSize, w.pushed)],
            pendingConfirmation := w.pendingConfirmation + w.bufferedSize,
            queue := w.queue + [w.buffers], pushed := w.pushed + 1)
  }

  /** The state after popping n confirmations. */
  function Popped(w: WriteState, n: nat): WriteState
    requires n <= |w.confirmations| && Sum(w.confirmations[..n]) <= w.pendingConfirmation
  {
    w.(confirmations := w.confirmations[n..],
       pendingConfirmation := w.pendingConfirmation - Sum(w.confirmations[..n]))
  }

  /** How many confirmations must be popped before at most `threshold` bytes are unconfirmed. */
  function Excess(cs: seq<Confirmation>, pending: int, threshold: nat): (n: nat)
    ensures n <= |cs|
  {
    if pending <= threshold || cs == [] then 0 else 1 + Excess(cs[1..], pending - cs[0].size, threshold)
  }

  function Sum(cs: seq<Confirmation>): nat {
    if cs == [] then 0 else cs[0].size + Sum(cs[1..])
  }

  function Batches(cs: seq<Confirmation>): seq<nat> {
    seq(|cs|, i requires 0 <= i < |cs| => cs[i].batch)
  }

  function FlushThreshold(limits: Limits, bps: nat): nat {
    Min(limits.maxSize, Max(limits.minSize, 2 * bps))
  }

  function ConfirmThreshold(limits: Limits, bps: nat): nat {
    6 * FlushThreshold(limits, bps)
  }

  // ------------------------------------------------------------------------
  // The invariant
  // ------------------------------------------------------------------------

  /** The counters are the sums of their queues, and the last buffer ends where coalescing continues. */
  ghost predicate Accounted(w: WriteState) {
    && w.bufferedSize == TotalLength(w.buffers)
    && w.pendingConfirmation == Sum(w.confirmations)
    && (forall c <- w.confirmations :: c.size > 0)
    && |w.confirmations| <= w.pushed
    && (forall i :: 0 <= i < |w.confirmations| ==> w.confirmations[i].batch == w.pushed - |w.confirmations| + i)
    && (w.buffers != [] ==>
          var last := w.buffers[|w.buffers| - 1];
          w.nextOffset == last.offset + |last.data|)
  }

  lemma {:induction false} SumSplit(a: seq<Confirmation>, b: seq<Confirmation>)
    ensures Sum(a + b) == Sum(a) + Sum(b)
  {
    if a == [] {
      assert a + b == b;
    } else {
      SumSplit(a[1..], b);
      assert (a + b)[1..] == a[1..] + b;
    }
  }

  lemma AppendAccounted(w: WriteState, offset: nat, data: Bytes)
    requires Accounted(w)
    ensures Accounted(Append(w, offset, data))
  {
    var w' := Append(w, offset, data);
    var n := |w'.buffers| - 1;
    var m := |w.buffers| - if |w'.buffers| == |w.buffers| then 1 else 0;
    assert w'.buffers[..m] == w.buffers[..m];
    LengthOfPrefix(w.buffers, w'.buffers, m);
  }

  lemma PushAccounted(w: WriteState)
    requires Accounted(w)
    ensures Accounted(Push(w)) && Push(w).bufferedSize == 0
  {
    if w.bufferedSize > 0 {
      var c := Confirmation(w.bufferedSize, w.pushed);
      SumSplit(w.confirmations, [c]);
    }
  }

  lemma PoppedAccounted(w: WriteState, n: nat)
    requires Accounted(w) && n <= |w.confirmations|
    ensures Sum(w.confirmations[..n]) <= w.pendingConfirmation && Accounted(Popped(w, n))
  {
    SumSplit(w.confirmations[..n], w.confirmations[n..]);
    assert w.confirmations[..n] + w.confirmations[n..] == w.confirmations;
  }

  // ------------------------------------------------------------------------
  // What the buffered file is
  // ------------------------------------------------------------------------

  function Flatten(batches: seq<seq<Buffer>>): seq<Buffer> {
    if batches == [] then [] else batches[0] + Flatten(batches[1..])
  }

  /** Everything accepted and not yet written: the pushed batches, then the buffers. */
  function Outstanding(w: WriteState): seq<Buffer> {
    Flatten(w.queue) + w.buffers
  }

  lemma {:induction false} FlattenSnoc(batches: seq<seq<Buffer>>, b: seq<Buffer>)
    ensures Flatten(batches + [b]) == Flatten(batches) + b
  {
    if batches == [] {
      assert batches + [b] == [b];
      assert Flatten([b]) == b + Flatten([]);
    } else {
      FlattenSnoc(batches[1..], b);
      assert (batches + [b])[1..] == batches[1..] + [b];
      assert batches[0] + (Flatten(batches[1..]) + b) == batches[0] + Flatten(batches[1..]) + b;
    }
  }

  /** Buffering a write, coalesced or not, adds exactly that write to the outstanding ones. */
  lemma AppendMeansWrite(w: WriteState, f: Bytes, offset: nat, data: Bytes)
    requires Accounted(w)
    ensures ApplyAll(f, Outstanding(Append(w, offset, data))) == WriteAt(ApplyAll(f, Outstanding(w)), offset, data)
  {
    var w' := Append(w, offset, data);
    var out, out' := Outstanding(w), Outstanding(w');
    if w.buffers == [] || w.nextOffset != offset {
      assert out' == out + [Buffer(offset, data)];
      ApplySnoc(f, out, Buffer(offset, data));
    } else {
      var n := |w.buffers| - 1;
      var last := w.buffers[n];
      var before := Flatten(w.queue) + w.buffers[..n];
      assert out == before + [last];
      assert out' == before + [Buffer(last.offset, last.data + data)];
      hide Flatten, WriteAt, Append, Accounted, Outstanding, ApplyAll;
      ApplySnoc(f, before, last);
      ApplySnoc(f, before, Buffer(last.offset, last.data + data));
      WritesCoalesce(ApplyAll(f, before), last.offset, last.data, data);
    }
  }

  lemma ApplySnoc(f: Bytes, buffers: seq<Buffer>, b: Buffer)
    ensures ApplyAll(f, buffers + [b]) == WriteAt(ApplyAll(f, buffers), b.offset, b.data)
  {
    assert (buffers + [b])[..|buffers|] == buffers;
  }

  lemma {:induction false} EmptyBuffersMeanNothing(f: Bytes, buffers: seq<Buffer>)
    requires TotalLength(buffers) == 0
    ensures ApplyAll(f, buffers) == f
  {
    if buffers == [] {
    } else {
      var n := |buffers| - 1;
      LengthOfPrefix(buffers, buffers[..n], n);
      EmptyBuffersMeanNothing(f, buffers[..n]);
    }
  }

  /** Pushing moves writes to the queue without changing what is outstanding. */
  lemma PushKeepsOutstanding(w: WriteState)
    ensures Outstanding(Push(w)) == Outstanding(w)
  {
    if w.bufferedSize > 0 {
      FlattenSnoc(w.queue, w.buffers);
    }
  }

  // ------------------------------------------------------------------------
  // Confirmations
  // ------------------------------------------------------------------------

  /** The awaited confirmations are the shortest front part that brings the unconfirmed bytes down. */
  lemma {:induction false} ExcessIsShortest(cs: seq<Confirmation>, threshold: nat)
    ensures Sum(cs[Excess(cs, Sum(cs), threshold)..]) <= threshold
    ensures forall m :: 0 <= m < Excess(cs, Sum(cs), threshold) ==> Sum(cs[m..]) > threshold
  {
    assert cs[0..] == cs;
    if Sum(cs) <= threshold {
    } else {
      var rest := cs[1..];
      var n := Excess(rest, Sum(rest), threshold);
      assert Excess(cs, Sum(cs), threshold) == n + 1;
      ExcessIsShortest(rest, threshold);
      hide Sum, Excess;
      assert cs[n + 1..] == rest[n..];
      forall m | 0 <= m < n + 1 ensures Sum(cs[m..]) > threshold {
        assert m > 0 ==> cs[m..] == rest[m - 1..];
      }
    }
  }

  /** Popping the next confirmation brings the excess down by one. */
  lemma PopNext(cs: seq<Confirmation>, k: nat, threshold: nat)
    requires k <= |cs| && Sum(cs[k..]) > threshold
    ensures k < |cs| && cs[k..][0] == cs[k] && cs[k..][1..] == cs[k + 1..]
    ensures Sum(cs[k + 1..]) == Sum(cs[k..]) - cs[k].size
    ensures Excess(cs[k..], Sum(cs[k..]), threshold) == 1 + Excess(cs[k + 1..], Sum(cs[k + 1..]), threshold)
  {
    assert cs[k..] != [];
    assert cs[k..][1..] == cs[k + 1..];
  }

  lemma NothingInExcess(cs: seq<Confirmation>, threshold: nat)
    requires Sum(cs) <= threshold
    ensures Excess(cs, Sum(cs), threshold) == 0
  {
  }

  function Confirm(w: WriteState, threshold: nat): (WriteState, seq<nat>)
    requires Accounted(w)
  {
    var n := Excess(w.confirmations, w.pendingConfirmation, threshold);
    PoppedAccounted(w, n);
    (Popped(w, n), Batches(w.confirmations[..n]))
  }

  /** fsync: everything is pushed and every confirmation awaited. */
  function Sync(w: WriteState): (WriteState, seq<nat>)
    requires Accounted(w)
  {
    PushAccounted(w);
    Confirm(Push(w), 0)
  }

  function Write(
    w: WriteState, limits: Limits, offset: nat, data: Bytes, flushBps: nat, confirmBps: nat): (WriteState, seq<nat>)
    requires Accounted(w)
  {
    AppendAccounted(w, offset, data);
    var w1 := Append(w, offset, data);
    PushAccounted(w1);
    if w1.bufferedSize > FlushThreshold(limits, flushBps)
    then Confirm(Push(w1), ConfirmThreshold(limits, confirmBps))
    else (w1, [])
  }

  lemma ConfirmAccounted(w: WriteState, threshold: nat)
    requires Accounted(w)
    ensures var (w', waits) := Confirm(w, threshold);
            && Accounted(w') && w'.pendingConfirmation <= threshold
            && w'.queue == w.queue && w'.buffers == w.buffers && w'.pushed == w.pushed
            && w'.bufferedSize == w.bufferedSize
            && |waits| + |w'.confirmations| == |w.confirmations|
            && (forall i :: 0 <= i < |waits| ==> waits[i] == w.pushed - |w.confirmations| + i)
  {
    var n := Excess(w.confirmations, w.pendingConfirmation, threshold);
    PoppedAccounted(w, n);
    ExcessIsShortest(w.confirmations, threshold);
    SumSplit(w.confirmations[..n], w.confirmations[n..]);
    assert w.confirmations[..n] + w.confirmations[n..] == w.confirmations;
  }

  lemma ConfirmIs(w: WriteState, threshold: nat, w': WriteState, waits: seq<nat>)
    requires Accounted(w) && |waits| == Excess(w.confirmations, w.pendingConfirmation, threshold)
    requires forall i :: 0 <= i < |waits| ==> waits[i] == w.confirmations[i].batch
    requires w' == w.(confirmations := w.confirmations[|waits|..],
                      pendingConfirmation := Sum(w.confirmations[|waits|..]))
    ensures (w', waits) == Confirm(w, threshold)
    ensures forall m :: 0 <= m < |waits| ==> Sum(w.confirmations[m..]) > threshold
  {
    ExcessIsShortest(w.confirmations, threshold);
    PoppedAccounted(w, |waits|);
    assert Sum(Popped(w, |waits|).confirmations) == Popped(w, |waits|).pendingConfirmation;
    assert waits == Batches(w.confirmations[..|waits|]);
  }

  /** After fsync nothing is buffered and no confirmation is left behind. */
  lemma SyncLeavesNothing(w: WriteState)
    requires Accounted(w)
    ensures var (w', waits) := Sync(w);
            && Accounted(w') && w'.bufferedSize == 0 && w'.confirmations == []
            && w'.pushed == Push(w).pushed && w'.queue == Push(w).queue && w'.buffers == Push(w).buffers
            && |waits| == |Push(w).confirmations|
            && (forall i :: 0 <= i < |waits| ==> waits[i] == w'.pushed - |waits| + i)
  {
    PushAccounted(w);
    ConfirmAccounted(Push(w), 0);
  }

  /** Whatever bandwidth was measured, a write leaves at most maxSize bytes buffered. */
  lemma WriteAccounted(w: WriteState, limits: Limits, offset: nat, data: Bytes, flushBps: nat, confirmBps: nat)
    requires Accounted(w)
    ensures var (w', waits) := Write(w, limits, offset, data, flushBps, confirmBps);
            && Accounted(w') && w'.bufferedSize <= limits.maxSize
            && |waits| + |w'.confirmations| == |w.confirmations| + w'.pushed - w.pushed
            && w.pushed <= w'.pushed
            && (forall i :: 0 <= i < |waits| ==> waits[i] == w.pushed - |w.confirmations| + i)
  {
    AppendAccounted(w, offset, data);
    var w1 := Append(w, offset, data);
    PushAccounted(w1);
    if w1.bufferedSize > FlushThreshold(limits, flushBps) {
      ConfirmAccounted(Push(w1), ConfirmThreshold(limits, confirmBps));
    }
  }

  /** A buffered write, pushed or not, adds exactly that write to the outstanding ones. */
  lemma WriteMeansWrite(
    w: WriteState, limits: Limits, f: Bytes, offset: nat, data: Bytes, flushBps: nat, confirmBps: nat)
    requires Accounted(w)
    ensures ApplyAll(f, Outstanding(Write(w, limits, offset, data, flushBps, confirmBps).0)) ==
            WriteAt(ApplyAll(f, Outstanding(w)), offset, data)
  {
    AppendMeansWrite(w, f, offset, data);
    AppendAccounted(w, offset, data);
    var w1 := Append(w, offset, data);
    PushKeepsOutstanding(w1);
    PushAccounted(w1);
    if w1.bufferedSize > FlushThreshold(limits, flushBps) {
      ConfirmAccounted(Push(w1), ConfirmThreshold(limits, confirmBps));
    }
  }

  // ------------------------------------------------------------------------
  // The queue is only appended to
  // ------------------------------------------------------------------------

  lemma PushQueue(w: WriteState, q: seq<seq<Buffer>>)
    ensures |Push(w).queue| >= |w.queue| && Push(w).queue[..|w.queue|] == w.queue
    ensures |Push(w).queue| - |w.queue| == Push(w).pushed - w.pushed
    ensures Push(w.(queue := q)) == Push(w).(queue := q + Push(w).queue[|w.queue|..])
  {
    if w.bufferedSize == 0 {
      assert q + [] == q;
    }
  }

  lemma SyncQueue(w: WriteState, q: seq<seq<Buffer>>)
    requires Accounted(w)
    ensures Accounted(w.(queue := q))
    ensures var w' := Sync(w).0;
            && |w'.queue| >= |w.queue| && w'.queue[..|w.queue|] == w.queue
            && |w'.queue| - |w.queue| == w'.pushed - w.pushed
            && Sync(w.(queue := q)).0 == w'.(queue := q + w'.queue[|w.queue|..])
  {
    PushQueue(w, q);
  }

  lemma WriteQueue(
    w: WriteState, limits: Limits, offset: nat, data: Bytes, flushBps: nat, confirmBps: nat, q: seq<seq<Buffer>>)
    requires Accounted(w)
    ensures Accounted(w.(queue := q))
    ensures var w' := Write(w, limits, offset, data, flushBps, confirmBps).0;
            && |w'.queue| >= |w.queue| && w'.queue[..|w.queue|] == w.queue
            && |w'.queue| - |w.queue| == w'.pushed - w.pushed
            && Write(w.(queue := q), limits, offset, data, flushBps, confirmBps).0 ==
               w'.(queue := q + w'.queue[|w.queue|..])
  {
    AppendAccounted(w, offset, data);
    var w1 := Append(w, offset, data);
    PushQueue(w1, q);
    PushAccounted(w1);
    assert Append(w.(queue := q), offset, data) == w1.(queue := q);
    if w1.bufferedSize <= FlushThreshold(limits, flushBps) {
      assert q + [] == q;
    }
  }

  /**
   * Batches were added at the end of the queue, each with its confirmation, and
   * the confirmations that are awaited were popped from the front.
   */
  ghost predicate Extends(w: WriteState, w': WriteState, waits: seq<nat>) {
    && Accounted(w')
    && |w'.queue| >= |w.queue| && w'.queue[..|w.queue|] == w.queue
    && |w'.queue| - |w.queue| == w'.pushed - w.pushed
    && |waits| + |w'.confirmations| == |w.confirmations| + w'.pushed - w.pushed
    && (forall i :: 0 <= i < |waits| ==> waits[i] == w.pushed - |w.confirmations| + i)
  }

  lemma WriteExtends(w: WriteState, limits: Limits, offset: nat, data: Bytes, flushBps: nat, confirmBps: nat)
    requires Accounted(w)
    ensures var (w', waits) := Write(w, limits, offset, data, flushBps, confirmBps); Extends(w, w', waits)
  {
    WriteAccounted(w, limits, offset, data, flushBps, confirmBps);
    WriteQueue(w, limits, offset, data, flushBps, confirmBps, []);
    hide Accounted, Write;
  }

  lemma PushExtends(w: WriteState)
    requires Accounted(w)
    ensures Extends(w, Push(w), []) && Push(w).bufferedSize == 0
  {
    PushAccounted(w);
    PushQueue(w, []);
    hide Accounted;
  }

  lemma SyncExtends(w: WriteState)
    requires Accounted(w)
    ensures var (w', waits) := Sync(w); Extends(w, w', waits) && w'.bufferedSize == 0 && w'.confirmations == []
  {
    SyncLeavesNothing(w);
    PushExtends(w);
    hide Accounted, Sync, Push;
  }

  // ------------------------------------------------------------------------
  // Any sequence of writes, timer flushes and fsyncs
  // ------------------------------------------------------------------------

  datatype Op = WriteOp(offset: nat, data: Bytes, flushBps: nat, confirmBps: nat) | FlushOp | SyncOp

  ghost function After(w: WriteState, limits: Limits, op: Op): WriteState
    requires Accounted(w)
  {
    match op
    case WriteOp(offset, data, flushBps, confirmBps) => Write(w, limits, offset, data, flushBps, confirmBps).0
    case FlushOp => Push(w)
    case SyncOp => Sync(w).0
  }

  ghost function AfterAll(limits: Limits, ops: seq<Op>): (w: WriteState)
    ensures Accounted(w)
  {
    if ops == [] then EMPTY
    else
      var w := AfterAll(limits, ops[..|ops| - 1]);
      var op := ops[|ops| - 1];
      AfterAccounted(w, limits, op);
      After(w, limits, op)
  }

  lemma AfterAccounted(w: WriteState, limits: Limits, op: Op)
    requires Accounted(w)
    ensures Accounted(After(w, limits, op))
  {
    match op
    case WriteOp(offset, data, flushBps, confirmBps) => WriteAccounted(w, limits, offset, data, flushBps, confirmBps);
    case FlushOp => PushAccounted(w);
    case SyncOp => SyncLeavesNothing(w);
  }

  /** The writes the clients asked for, one by one. */
  ghost function Requested(ops: seq<Op>): seq<Buffer> {
    if ops == [] then []
    else
      var op := ops[|ops| - 1];
      Requested(ops[..|ops| - 1]) + if op.WriteOp? then [Buffer(op.offset, op.data)] else []
  }

  lemma AfterMeansOp(w: WriteState, limits: Limits, f: Bytes, op: Op)
    requires Accounted(w)
    ensures ApplyAll(f, Outstanding(After(w, limits, op))) ==
            var g := ApplyAll(f, Outstanding(w)); if op.WriteOp? then WriteAt(g, op.offset, op.data) else g
  {
    match op
    case WriteOp(offset, data, flushBps, confirmBps) =>
      WriteMeansWrite(w, limits, f, offset, data, flushBps, confirmBps);
    case FlushOp =>
      PushKeepsOutstanding(w);
    case SyncOp =>
      PushKeepsOutstanding(w);
      SyncLeavesNothing(w);
  }

  /** Coalescing preserves meaning: emitted batches, then buffers, give the file of the original writes. */
  lemma {:induction false} CoalescingPreservesMeaning(f: Bytes, limits: Limits, ops: seq<Op>)
    ensures ApplyAll(f, Outstanding(AfterAll(limits, ops))) == ApplyAll(f, Requested(ops))
  {
    hide After, Outstanding, Accounted;
    if ops == [] {
      assert Outstanding(EMPTY) == [] by {
        NothingOutstanding();
      }
    } else {
      var n := |ops| - 1;
      CoalescingPreservesMeaning(f, limits, ops[..n]);
      AfterMeansOp(AfterAll(limits, ops[..n]), limits, f, ops[n]);
      if ops[n].WriteOp? {
        assert Requested(ops)[..|Requested(ops)| - 1] == Requested(ops[..n]);
      } else {
        assert Requested(ops) == Requested(ops[..n]);
      }
    }
  }

  lemma NothingOutstanding()
    ensures Outstanding(EMPTY) == []
  {
  }

  // ------------------------------------------------------------------------
  // The object
  // ------------------------------------------------------------------------

  class WriteBuffer {
    const limits: Limits
    var buffers: seq<Buffer>
    var bufferedSize: nat
    var nextOffset: nat
    var confirmations: seq<Confirmation>
    var pendingConfirmation: nat
    /** The chain of pushed batches still to be written. */
    var queue: seq<seq<Buffer>>
    var pushed: nat

    constructor (limits: Limits)
      ensures this.limits == limits && State() == EMPTY && Valid()
    {
      this.limits := limits;
      buffers, bufferedSize, nextOffset := [], 0, 0;
      confirmations, pendingConfirmation := [], 0;
      queue, pushed := [], 0;
    }

    ghost function State(): WriteState
      reads this
    {
      WriteState(buffers, bufferedSize, nextOffset, confirmations, pendingConfirmation, queue, pushed)
    }

    ghost predicate Valid()
      reads this
    {
      Accounted(State())
    }

    method PushBuffer()
      requires Valid()
      modifies this
      ensures Valid() && State() == Push(old(State()))
    {
      PushAccounted(State());
      if bufferedSize == 0 {
        return;
      }
      queue := queue + [buffers];
      buffers := [];
      pendingConfirmation := pendingConfirmation + bufferedSize;
      confirmations := confirmations + [Confirmation(bufferedSize, pushed)];
      bufferedSize, pushed := 0, pushed + 1;
    }

    /** Pops confirmations until at most `threshold` bytes are unconfirmed; the front it reads always exists. */
    method ConfirmDownTo(threshold: nat) returns (waits: seq<nat>)
      requires Valid()
      modifies this`confirmations, this`pendingConfirmation
      ensures Valid() && (State(), waits) == Confirm(old(State()), threshold)
      ensures pendingConfirmation <= threshold
      ensures forall m :: 0 <= m < |waits| ==> Sum(old(confirmations)[m..]) > threshold
    {
      ghost var w, all := State(), confirmations;
      assert pendingConfirmation == Sum(all) && all[0..] == all;
      hide Accounted, Confirm, Popped, Batches, Sum, Excess;
      waits := [];
      while pendingConfirmation > threshold
        invariant |waits| <= |all| && confirmations == all[|waits|..] && pendingConfirmation == Sum(confirmations)
        invariant forall i :: 0 <= i < |waits| ==> waits[i] == all[i].batch
        invariant |waits| + Excess(confirmations, pendingConfirmation, threshold) == Excess(all, Sum(all), threshold)
        decreases |confirmations|
      {
        PopNext(all, |waits|, threshold);
        waits := waits + [confirmations[0].batch];
        pendingConfirmation := pendingConfirmation - confirmations[0].size;
        confirmations := confirmations[1..];
      }
      NothingInExcess(confirmations, threshold);
      ConfirmIs(w, threshold, State(), waits);
      ConfirmAccounted(w, threshold);
    }

    /** fsync: pushes what is buffered; the batches awaited are all those not confirmed before. */
    method Fsync() returns (waits: seq<nat>)
      requires Valid()
      modifies this
      ensures Valid() && (State(), waits) == Sync(old(State()))
      ensures bufferedSize == 0 && confirmations == []
    {
      SyncLeavesNothing(State());
      PushAccounted(State());
      PushBuffer();
      waits := ConfirmDownTo(0);
    }

    /** A write is buffered, and pushed once the flush threshold is passed; never more than maxSize stays buffered. */
    method WriteAtOffset(offset: nat, data: Bytes, flushBps: nat, confirmBps: nat) returns (size: nat, waits: seq<nat>)
      requires Valid()
      modifies this
      ensures Valid() && size == |data|
      ensures (State(), waits) == Write(old(State()), limits, offset, data, flushBps, confirmBps)
      ensures bufferedSize <= limits.maxSize
    {
      ghost var w := State();
      WriteAccounted(w, limits, offset, data, flushBps, confirmBps);
      hide Accounted, Append, Push, Confirm;
      AppendBuffer(offset, data);
      size, waits := |data|, [];
      if bufferedSize > FlushThreshold(limits, flushBps) {
        PushBuffer();
        waits := ConfirmDownTo(ConfirmThreshold(limits, confirmBps));
      }
    }

    /** Adds the data to the last buffer when it continues it, and as a new buffer otherwise. */
    method AppendBuffer(offset: nat, data: Bytes)
      requires Valid()
      modifies this
      ensures Valid() && State() == Append(old(State()), offset, data)
    {
      AppendAccounted(State(), offset, data);
      hide Accounted;
      if buffers == [] || nextOffset != offset {
        buffers := buffers + [Buffer(offset, data)];
      } else {
        var n := |buffers| - 1;
        buffers := buffers[n := Buffer(buffers[n].offset, buffers[n].data + data)];
      }
      bufferedSize := bufferedSize + |data|;
      nextOffset := offset + |data|;
    }
  }
}
