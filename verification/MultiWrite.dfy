/** FileHandle::multiwrite: the buffers of a list written one after the other. */
module MultiWrite {
  import opened Wrappers
  import opened FlatFile

  datatype Buffer = Buffer(offset: nat, data: Bytes)

  /** How an underlying write ends: it reports a number of bytes, or fails. */
  datatype Report = Wrote(count: nat) | Failed(errno: nat)

  /** The length of the first n buffers together. */
  function LengthOf(buffers: seq<Buffer>, n: nat): nat
    requires n <= |buffers|
  {
    if n == 0 then 0 else LengthOf(buffers, n - 1) + |buffers[n - 1].data|
  }

  function TotalLength(buffers: seq<Buffer>): nat {
    LengthOf(buffers, |buffers|)
  }

  /** The bytes the first n reports claim together. */
  function ReportedBy(reports: seq<Report>, n: nat): nat
    requires n <= |reports|
  {
    if n == 0 then 0
    else ReportedBy(reports, n - 1) + match reports[n - 1] case Wrote(count) => count case Failed(_) => 0
  }

  /** The file after the buffers have been written in list order. */
  function ApplyAll(f: Bytes, buffers: seq<Buffer>): Bytes {
    if buffers == [] then f
    else var n := |buffers| - 1; WriteAt(ApplyAll(f, buffers[..n]), buffers[n].offset, buffers[n].data)
  }

  /** What the chain of continuations has produced after n buffers: its value, and the writes it made. */
  datatype Progress = Progress(value: Result<nat, nat>, written: seq<int>)

  /** One continuation: it passes an error or an excess on, and writes its buffer otherwise. */
  function Continue(p: Progress, shouldHaveWritten: nat, k: nat, report: Report): Progress {
    if p.value.Err? || shouldHaveWritten < p.value.value then p
    else Progress(match report
                  case Wrote(count) => Ok(p.value.value + count)
                  case Failed(errno) => Err(errno), p.written + [k])
  }

  function Chain(buffers: seq<Buffer>, reports: seq<Report>, n: nat): Progress
    requires n <= |buffers| && n <= |reports|
  {
    if n == 0 then Progress(Ok(0), [])
    else Continue(Chain(buffers, reports, n - 1), LengthOf(buffers, n - 1), n - 1, reports[n - 1])
  }

  /** Builds the chain buffer by buffer; reports[k] is how the write of buffer k ends, if it is made. */
  method Multiwrite(buffers: seq<Buffer>, reports: seq<Report>) returns (value: Result<nat, nat>, written: seq<int>)
    requires |buffers| == |reports|
    ensures Progress(value, written) == Chain(buffers, reports, |buffers|)
  {
    value, written := Ok(0), [];
    var shouldHaveWrittenSoFar := 0;
    for k := 0 to |buffers|
      invariant shouldHaveWrittenSoFar == LengthOf(buffers, k)
      invariant Progress(value, written) == Chain(buffers, reports, k)
    {
      if value.Ok? && shouldHaveWrittenSoFar >= value.value {
        written := written + [k];
        value := match reports[k]
                 case Wrote(count) => Ok(value.value + count)
                 case Failed(errno) => Err(errno);
      }
      shouldHaveWrittenSoFar := shouldHaveWrittenSoFar + |buffers[k].data|;
    }
  }

  /** 0, 1, ..., n - 1. */
  function Iota(n: nat): seq<int> {
    if n == 0 then [] else Iota(n - 1) + [n - 1]
  }

  lemma {:induction false} IotaLength(n: nat)
    ensures |Iota(n)| == n
  {
    if n == 0 {
    } else {
      IotaLength(n - 1);
    }
  }

  /** No prefix of the reports claims more than the buffers before it held. */
  ghost predicate NeverAhead(buffers: seq<Buffer>, reports: seq<Report>, n: nat)
    requires n <= |buffers| == |reports|
  {
    n == 0 || (&& NeverAhead(buffers, reports, n - 1)
               && reports[n - 1].Wrote? && ReportedBy(reports, n - 1) <= LengthOf(buffers, n - 1))
  }

  lemma {:induction false} NeverAheadWritesAll(buffers: seq<Buffer>, reports: seq<Report>, n: nat)
    requires n <= |buffers| == |reports| && NeverAhead(buffers, reports, n)
    ensures Chain(buffers, reports, n) == Progress(Ok(ReportedBy(reports, n)), Iota(n))
  {
    if n == 0 {
    } else {
      NeverAheadWritesAll(buffers, reports, n - 1);
    }
  }

  lemma {:induction false} WritingAllIsNeverAhead(buffers: seq<Buffer>, reports: seq<Report>, n: nat)
    requires n <= |buffers| == |reports|
    ensures |Chain(buffers, reports, n).written| <= n
    ensures Chain(buffers, reports, n).value.Ok? && |Chain(buffers, reports, n).written| == n ==>
              NeverAhead(buffers, reports, n)
  {
    if n == 0 {
    } else {
      WritingAllIsNeverAhead(buffers, reports, n - 1);
      if NeverAhead(buffers, reports, n - 1) {
        NeverAheadWritesAll(buffers, reports, n - 1);
      }
    }
  }

  /** Every buffer is written, in list order and without error, exactly when the reports are never ahead. */
  lemma AllWrittenExactly(buffers: seq<Buffer>, reports: seq<Report>)
    requires |buffers| == |reports|
    ensures var p := Chain(buffers, reports, |buffers|);
            NeverAhead(buffers, reports, |buffers|) <==> p.value.Ok? && p.written == Iota(|buffers|)
    ensures NeverAhead(buffers, reports, |buffers|) ==>
              Chain(buffers, reports, |buffers|).value == Ok(ReportedBy(reports, |reports|))
  {
    WritingAllIsNeverAhead(buffers, reports, |buffers|);
    IotaLength(|buffers|);
    if NeverAhead(buffers, reports, |buffers|) {
      NeverAheadWritesAll(buffers, reports, |buffers|);
    }
  }

  /** A first write that reports a byte too many leaves the second buffer unwritten, and no error. */
  lemma ExcessStopsTheChain()
    ensures var buffers, reports := [Buffer(0, [1]), Buffer(1, [2])], [Wrote(2), Wrote(1)];
            !NeverAhead(buffers, reports, 2) && Chain(buffers, reports, 2) == Progress(Ok(2), [0])
  {
    var buffers, reports := [Buffer(0, [1]), Buffer(1, [2])], [Wrote(2), Wrote(1)];
    assert Chain(buffers, reports, 0) == Progress(Ok(0), []);
    assert Chain(buffers, reports, 1) == Progress(Ok(2), [0]);
    assert LengthOf(buffers, 1) == 1 && ReportedBy(reports, 1) == 2;
  }

  lemma {:induction false} BoundedReports(buffers: seq<Buffer>, reports: seq<Report>, n: nat)
    requires n <= |buffers| == |reports|
    requires forall k :: 0 <= k < n ==> reports[k].Wrote? && reports[k].count <= |buffers[k].data|
    ensures ReportedBy(reports, n) <= LengthOf(buffers, n)
    ensures (forall k :: 0 <= k < n ==> reports[k].count == |buffers[k].data|) ==>
              ReportedBy(reports, n) == LengthOf(buffers, n)
    ensures NeverAhead(buffers, reports, n)
  {
    if n == 0 {
    } else {
      BoundedReports(buffers, reports, n - 1);
    }
  }

  /**
   * When no write reports more than its buffer holds the early return is never
   * taken, and full writes report the total length.
   */
  lemma MultiwriteComplete(buffers: seq<Buffer>, reports: seq<Report>)
    requires |buffers| == |reports|
    requires forall k :: 0 <= k < |buffers| ==> reports[k].Wrote? && reports[k].count <= |buffers[k].data|
    ensures var p := Chain(buffers, reports, |buffers|);
            p.written == Iota(|buffers|) && p.value == Ok(ReportedBy(reports, |reports|))
    ensures (forall k :: 0 <= k < |buffers| ==> reports[k].count == |buffers[k].data|) ==>
              ReportedBy(reports, |reports|) == TotalLength(buffers)
  {
    BoundedReports(buffers, reports, |buffers|);
    AllWrittenExactly(buffers, reports);
  }

  lemma {:induction false} ApplyAppend(f: Bytes, a: seq<Buffer>, b: seq<Buffer>)
    ensures ApplyAll(f, a + b) == ApplyAll(ApplyAll(f, a), b)
  {
    if b == [] {
      assert a + b == a;
    } else {
      var n := |b| - 1;
      ApplyAppend(f, a, b[..n]);
      assert (a + b)[..|a + b| - 1] == a + b[..n];
    }
  }

  lemma {:induction false} LengthOfPrefix(a: seq<Buffer>, b: seq<Buffer>, n: nat)
    requires n <= |a| && n <= |b| && a[..n] == b[..n]
    ensures LengthOf(a, n) == LengthOf(b, n)
  {
    if n == 0 {
    } else {
      assert a[..n - 1] == a[..n][..n - 1] == b[..n][..n - 1] == b[..n - 1];
      assert a[n - 1] == a[..n][n - 1] == b[n - 1];
      LengthOfPrefix(a, b, n - 1);
    }
  }
}
