/**
 * The double-buffered work queue of a file handle. Any thread appends to the
 * filled queue under the lock; whoever finds no drain in progress owes one to the
 * executor; the drain swaps the queues and visits the operations outside the lock.
 */
module FlatOpScheduling {

  /** Where a drain stands: promised, handed to the executor, at the loop's top, or visiting. */
  datatype Drain = Owed | Queued | Top | Visiting(next: nat)

  /** arrivals is the order in which the queue lock was taken, visited what the visitor has seen. */
  datatype State<Op> = State(
    filled: seq<Op>, used: seq<Op>, inProgress: bool, drains: seq<Drain>, arrivals: seq<Op>, visited: seq<Op>)

  ghost predicate Init<Op>(s: State<Op>) {
    s == State([], [], false, [], [], [])
  }

  // ------------------------------------------------------------------------
  // Steps
  // ------------------------------------------------------------------------

  /** The locked part of schedule. */
  function Enqueue<Op>(s: State<Op>, op: Op): State<Op> {
    s.(filled := s.filled + [op], inProgress := true, arrivals := s.arrivals + [op],
       drains := if s.inProgress then s.drains else s.drains + [Owed])
  }

  function Without(drains: seq<Drain>, k: nat): seq<Drain>
    requires k < |drains|
  {
    drains[..k] + drains[k + 1..]
  }

  /** The next atomic step of drain k. */
  function Advance<Op>(s: State<Op>, k: nat): State<Op>
    requires k < |s.drains| && (s.drains[k].Visiting? ==> s.drains[k].next <= |s.used|)
  {
    match s.drains[k]
    case Owed => s.(drains := s.drains[k := Queued])
    case Queued => s.(drains := s.drains[k := Top])
    case Top =>
      if s.filled == [] then s.(inProgress := false, drains := Without(s.drains, k))
      else s.(used := s.filled, filled := s.used, drains := s.drains[k := Visiting(0)])
    case Visiting(i) =>
      if i < |s.used| then s.(visited := s.visited + [s.used[i]], drains := s.drains[k := Visiting(i + 1)])
      else s.(used := [], drains := s.drains[k := Top])
  }

  ghost predicate Step<Op(!new)>(s: State<Op>, s': State<Op>) {
    || (exists op :: s' == Enqueue(s, op))
    || (exists k :: 0 <= k < |s.drains| && (s.drains[k].Visiting? ==> s.drains[k].next <= |s.used|)
                    && s' == Advance(s, k))
  }

  ghost predicate Run<Op(!new)>(run: seq<State<Op>>) {
    run != [] && Init(run[0]) && forall i :: 0 <= i < |run| - 1 ==> Step(run[i], run[i + 1])
  }

  // ------------------------------------------------------------------------
  // The invariant
  // ------------------------------------------------------------------------

  /** The operations taken from the filled queue and not yet visited. */
  function Taken<Op>(s: State<Op>): seq<Op> {
    if s.drains != [] && s.drains[0].Visiting? && s.drains[0].next <= |s.used| then s.used[s.drains[0].next..] else []
  }

  ghost predicate Inv<Op>(s: State<Op>) {
    && |s.drains| <= 1
    && (s.inProgress <==> s.drains != [])
    && (s.drains == [] ==> s.filled == [])
    && (if s.drains != [] && s.drains[0].Visiting? then s.drains[0].next <= |s.used| else s.used == [])
    && s.arrivals == s.visited + Taken(s) + s.filled
  }

  lemma EnqueueInv<Op>(s: State<Op>, op: Op)
    requires Inv(s)
    ensures Inv(Enqueue(s, op))
  {
    assert s.visited + Taken(s) + (s.filled + [op]) == s.visited + Taken(s) + s.filled + [op];
  }

  lemma MoveInv<Op>(s: State<Op>, d: Drain)
    requires Inv(s) && s.drains != [] && !s.drains[0].Visiting? && !d.Visiting?
    ensures Inv(s.(drains := [d]))
  {
    assert Taken(s.(drains := [d])) == Taken(s);
  }

  lemma FinishInv<Op>(s: State<Op>)
    requires Inv(s) && s.drains == [Top] && s.filled == []
    ensures Inv(s.(inProgress := false, drains := []))
  {
    assert Taken(s.(inProgress := false, drains := [])) == Taken(s);
  }

  lemma SwapInv<Op>(s: State<Op>)
    requires Inv(s) && s.drains == [Top]
    ensures Inv(s.(used := s.filled, filled := s.used, drains := [Visiting(0)]))
  {
    var s' := s.(used := s.filled, filled := s.used, drains := [Visiting(0)]);
    assert s.used == [] && Taken(s) == [];
    assert s.visited + [] == s.visited;
    assert s.filled[0..] == s.filled;
    assert Taken(s') == s.filled;
    assert s'.visited + Taken(s') + [] == s'.visited + Taken(s');
  }

  lemma VisitInv<Op>(s: State<Op>, i: nat)
    requires Inv(s) && s.drains == [Visiting(i)] && i < |s.used|
    ensures Inv(s.(visited := s.visited + [s.used[i]], drains := [Visiting(i + 1)]))
  {
    var s' := s.(visited := s.visited + [s.used[i]], drains := [Visiting(i + 1)]);
    assert Taken(s) == [s.used[i]] + Taken(s');
    assert s.visited + ([s.used[i]] + Taken(s')) == s.visited + [s.used[i]] + Taken(s');
  }

  lemma BatchEndInv<Op>(s: State<Op>, i: nat)
    requires Inv(s) && s.drains == [Visiting(i)] && i == |s.used|
    ensures Inv(s.(used := [], drains := [Top]))
  {
    assert Taken(s.(used := [], drains := [Top])) == Taken(s);
  }

  lemma AdvanceInv<Op>(s: State<Op>, k: nat)
    requires Inv(s) && k < |s.drains|
    ensures s.drains[k].Visiting? ==> s.drains[k].next <= |s.used|
    ensures Inv(Advance(s, k))
    ensures Advance(s, k).arrivals == s.arrivals
  {
    assert k == 0 && s.drains == [s.drains[0]];
    assert s.drains[0].Visiting? ==> s.drains[0].next <= |s.used|;
    hide Inv, Taken;
    match s.drains[0]
    case Owed =>
      MoveInv(s, Queued);
    case Queued =>
      MoveInv(s, Top);
    case Top =>
      if s.filled == [] {
        FinishInv(s);
      } else {
        SwapInv(s);
      }
    case Visiting(i) =>
      if i < |s.used| {
        VisitInv(s, i);
      } else {
        BatchEndInv(s, i);
      }
  }

  lemma {:induction false} RunInv<Op(!new)>(run: seq<State<Op>>, i: nat)
    requires Run(run) && i < |run|
    ensures Inv(run[i])
  {
    if i == 0 {
    } else {
      RunInv(run, i - 1);
      var s, s' := run[i - 1], run[i - 1 + 1];
      assert Step(s, s');
      if op :| s' == Enqueue(s, op) {
        EnqueueInv(s, op);
      } else {
        var k :| 0 <= k < |s.drains| && (s.drains[k].Visiting? ==> s.drains[k].next <= |s.used|) && s' == Advance(s, k);
        AdvanceInv(s, k);
      }
    }
  }

  /**
   * In every interleaving the visited operations are a front part of the
   * arrivals, each visited once and in lock order; the rest is queued; at most
   * one drain exists, a queued operation is owed one, the used queue is empty at
   * the loop's top, and with no drain left everything has been visited.
   */
  lemma ExactlyOnceInOrder<Op(!new)>(run: seq<State<Op>>, i: nat)
    requires Run(run) && i < |run|
    ensures var s := run[i];
            && s.visited <= s.arrivals
            && s.arrivals == s.visited + Taken(s) + s.filled
            && |s.drains| <= 1
            && (s.filled != [] || Taken(s) != [] ==> s.drains != [] && s.inProgress)
            && (forall k :: 0 <= k < |s.drains| && s.drains[k].Top? ==> s.used == [])
            && (s.drains == [] ==> s.visited == s.arrivals && !s.inProgress)
  {
    RunInv(run, i);
    var s := run[i];
    assert s.arrivals == s.visited + (Taken(s) + s.filled);
  }

  // ------------------------------------------------------------------------
  // Draining
  // ------------------------------------------------------------------------

  /** How many steps a drain has left when nothing more is scheduled. */
  function Work<Op>(s: State<Op>): nat {
    if s.drains == [] then 0
    else
      3 * |s.filled| +
      match s.drains[0]
      case Owed => 3
      case Queued => 2
      case Top => 1
      case Visiting(i) => 2 + if i <= |s.used| then |s.used| - i else 0
  }

  lemma AdvanceWorks<Op>(s: State<Op>)
    requires Inv(s) && s.drains != []
    ensures Inv(Advance(s, 0)) && Work(Advance(s, 0)) < Work(s)
  {
    AdvanceInv(s, 0);
  }

  /** Letting the drain run on its own. */
  ghost function Drained<Op>(s: State<Op>): State<Op>
    requires Inv(s)
    decreases Work(s)
  {
    if s.drains == [] then s
    else
      AdvanceWorks(s);
      Drained(Advance(s, 0))
  }

  /** No wakeup is lost: left alone, the drain that is owed visits everything that arrived and ends. */
  lemma {:induction false} DrainVisitsAll<Op>(s: State<Op>)
    requires Inv(s)
    ensures var d := Drained(s);
            d.drains == [] && d.arrivals == s.arrivals && d.visited == s.arrivals && !d.inProgress
    decreases Work(s)
  {
    if s.drains != [] {
      AdvanceInv(s, 0);
      AdvanceWorks(s);
      DrainVisitsAll(Advance(s, 0));
    }
  }

  // ------------------------------------------------------------------------
  // The object
  // ------------------------------------------------------------------------

  /** What is scheduled while the first n batches are visited. */
  function During<Op>(meanwhile: seq<seq<Op>>, n: nat): seq<Op> {
    if n == 0 then [] else During(meanwhile, n - 1) + if n <= |meanwhile| then meanwhile[n - 1] else []
  }

  /** Visited and queued operations are those there before the drain and those that came during n batches. */
  ghost predicate Balanced<Op>(visited: seq<Op>, filled: seq<Op>, before: seq<Op>, meanwhile: seq<seq<Op>>, n: nat) {
    visited + filled == before + During(meanwhile, n)
  }

  lemma BalancedAtFirst<Op>(visited: seq<Op>, filled: seq<Op>, meanwhile: seq<seq<Op>>)
    ensures Balanced(visited, filled, visited + filled, meanwhile, 0)
  {
    assert visited + filled + [] == visited + filled;
  }

  lemma BalancedAtLast<Op>(visited: seq<Op>, before: seq<Op>, meanwhile: seq<seq<Op>>, n: nat)
    requires Balanced(visited, [], before, meanwhile, n)
    ensures visited == before + During(meanwhile, n)
  {
    assert visited + [] == visited;
  }

  /** What is scheduled while batch n is visited. */
  function CameDuring<Op>(meanwhile: seq<seq<Op>>, n: nat): seq<Op> {
    if n < |meanwhile| then meanwhile[n] else []
  }

  lemma BatchVisited<Op>(visited: seq<Op>, batch: seq<Op>, before: seq<Op>, meanwhile: seq<seq<Op>>, n: nat)
    requires Balanced(visited, batch, before, meanwhile, n)
    ensures Balanced(visited + batch, CameDuring(meanwhile, n), before, meanwhile, n + 1)
  {
    var came := CameDuring(meanwhile, n);
    assert During(meanwhile, n + 1) == During(meanwhile, n) + came;
    assert before + (During(meanwhile, n) + came) == before + During(meanwhile, n) + came;
  }

  class FlatOpScheduler<Op> {
    var filled: seq<Op>
    var used: seq<Op>
    var drainInProgress: bool
    /** What the visitor has been applied to. */
    var visited: seq<Op>

    constructor ()
      ensures filled == [] && used == [] && !drainInProgress && visited == []
    {
      filled, used, drainInProgress, visited := [], [], false, [];
    }

    method Schedule(op: Op) returns (shouldIDrain: bool)
      modifies this`filled, this`drainInProgress
      ensures filled == old(filled) + [op] && drainInProgress
      ensures shouldIDrain <==> !old(drainInProgress)
      ensures forall drains, arrivals ::
                Enqueue(State(old(filled), used, old(drainInProgress), drains, arrivals, visited), op) ==
                State(filled, used, drainInProgress, if shouldIDrain then drains + [Owed] else drains,
                      arrivals + [op], visited)
    {
      filled := filled + [op];
      shouldIDrain := !drainInProgress;
      drainInProgress := true;
    }

    method ScheduleAll(ops: seq<Op>)
      requires drainInProgress
      modifies this`filled, this`drainInProgress
      ensures filled == old(filled) + ops && drainInProgress
    {
      for j := 0 to |ops|
        invariant filled == old(filled) + ops[..j] && drainInProgress
      {
        var shouldIDrain := Schedule(ops[j]);
        assert !shouldIDrain && ops[..j + 1] == ops[..j] + [ops[j]];
      }
      assert ops[..|ops|] == ops;
    }

    method VisitBatch()
      modifies this`visited, this`used
      ensures visited == old(visited) + old(used) && used == []
    {
      for i := 0 to |used|
        invariant used == old(used) && visited == old(visited) + used[..i]
      {
        visited := visited + [used[i]];
      }
      assert used[..|used|] == used;
      used := [];
    }

    /**
     * The drain loop; meanwhile[k] is what other threads schedule while batch k is
     * visited. It ends after visiting everything scheduled up to its last look at
     * the filled queue, in that order.
     */
    method DrainQueue(meanwhile: seq<seq<Op>>) returns (batches: nat)
      requires drainInProgress && used == []
      modifies this
      ensures filled == [] && used == [] && !drainInProgress
      ensures visited == old(visited) + old(filled) + During(meanwhile, batches)
    {
      hide Balanced, During;
      ghost var before := visited + filled;
      BalancedAtFirst(visited, filled, meanwhile);
      batches := 0;
      while true
        invariant used == [] && drainInProgress
        invariant batches > |meanwhile| ==> filled == []
        invariant Balanced(visited, filled, before, meanwhile, batches)
        decreases |meanwhile| + 1 - batches
      {
        if filled == [] {
          BalancedAtLast(visited, before, meanwhile, batches);
          drainInProgress := false;
          return;
        }
        BatchVisited(visited, filled, before, meanwhile, batches);
        DrainBatch(CameDuring(meanwhile, batches));
        batches := batches + 1;
      }
    }

    /** One turn of the loop: the queues are swapped and the batch is visited, while others schedule. */
    method DrainBatch(came: seq<Op>)
      requires drainInProgress && used == []
      modifies this
      ensures visited == old(visited) + old(filled) && filled == came && used == [] && drainInProgress
    {
      used, filled := filled, used;
      ScheduleAll(came);
      VisitBatch();
    }
  }
}
