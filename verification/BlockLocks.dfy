/**
 * Per-block tasks running concurrently. A task takes the lock of its key, calls
 * the storage (a partial write on a replace-on-put store makes two calls) and
 * releases the lock, whether or not a call threw.
 */
module BlockLocks {
  import opened FlatFile
  import opened BlockStore
  import opened Words

  datatype Task =
    | WriteTask(key: string, offset: nat, data: Bytes)
    | ReadTask(key: string, offset: nat, size: nat)

  /** A call may throw although the storage did what it was asked to; `stored` says that it did. */
  datatype Outcome = Done(value: Bytes) | Failed(errno: nat, stored: bool)

  datatype Phase =
    | Waiting
    | Locked
    | Fetched(buf: Bytes)
    | Leaving(outcome: Outcome)
    | Finished(outcome: Outcome)
  {
    predicate HoldsLock() {
      Locked? || Fetched? || Leaving?
    }

    predicate TookEffect() {
      (Leaving? || Finished?) && (outcome.Done? || outcome.stored)
    }
  }

  datatype Config = Config(blockSize: nat, randomAccess: bool, tasks: seq<Task>) {
    /** A partial block on a store without random access is fetched, merged and put back. */
    predicate MustFetch(t: nat)
      requires t < |tasks|
    {
      tasks[t].WriteTask? && |tasks[t].data| != blockSize && !randomAccess
    }

    ghost predicate Valid() {
      && blockSize > 0
      && forall t :: 0 <= t < |tasks| && tasks[t].WriteTask? ==>
           tasks[t].data != [] && tasks[t].offset + |tasks[t].data| <= blockSize
    }
  }

  /**
   * locks maps each held key to the task whose accessor holds it; log lists the
   * tasks in the order in which they read or wrote their object.
   */
  datatype State = State(objects: Objects, locks: map<string, nat>, phases: seq<Phase>, log: seq<nat>)

  // ------------------------------------------------------------------------
  // Steps
  // ------------------------------------------------------------------------

  ghost predicate Init(c: Config, s: State) {
    && c.Valid() && WithinBlocks(s.objects, c.blockSize)
    && s.locks == map[] && s.log == []
    && s.phases == seq(|c.tasks|, _ => Waiting)
  }

  ghost predicate Acquire(c: Config, s: State, t: nat, s': State)
    requires t < |c.tasks| == |s.phases|
  {
    && s.phases[t].Waiting? && c.tasks[t].key !in s.locks
    && s' == s.(locks := s.locks[c.tasks[t].key := t], phases := s.phases[t := Locked])
  }

  ghost predicate Fetch(c: Config, s: State, t: nat, s': State)
    requires t < |c.tasks| == |s.phases|
  {
    && s.phases[t].Locked? && c.MustFetch(t)
    && s' == s.(phases := s.phases[t := Fetched(ReadAt(Object(s.objects, c.tasks[t].key), 0, c.blockSize))])
  }

  /** What putObject stores: the merged block, the whole block, or an overwritten part of it. */
  ghost function PutValue(c: Config, s: State, t: nat): Bytes
    requires t < |c.tasks| == |s.phases| && c.tasks[t].WriteTask?
  {
    var task := c.tasks[t];
    if s.phases[t].Fetched? then WriteAt(s.phases[t].buf, task.offset, task.data)
    else if c.randomAccess then WriteAt(Object(s.objects, task.key), task.offset, task.data)
    else task.data
  }

  ghost predicate PutEnding(c: Config, s: State, t: nat, outcome: Outcome, s': State)
    requires t < |c.tasks| == |s.phases|
  {
    && c.tasks[t].WriteTask?
    && (if c.MustFetch(t) then s.phases[t].Fetched? else s.phases[t].Locked?)
    && s' == s.(objects := s.objects[c.tasks[t].key := PutValue(c, s, t)],
                phases := s.phases[t := Leaving(outcome)],
                log := s.log + [t])
  }

  /** A put that stores, and then returns or throws. */
  ghost predicate Put(c: Config, s: State, t: nat, s': State)
    requires t < |c.tasks| == |s.phases|
  {
    exists outcome :: PutEnding(c, s, t, outcome, s') && (outcome == Done([]) || (outcome.Failed? && outcome.stored))
  }

  ghost predicate Get(c: Config, s: State, t: nat, s': State)
    requires t < |c.tasks| == |s.phases|
  {
    && c.tasks[t].ReadTask? && s.phases[t].Locked?
    && s' == s.(phases := s.phases[t := Leaving(Done(Answer(s.objects, c.tasks[t])))], log := s.log + [t])
  }

  /** A call that throws without having stored anything. */
  ghost predicate Throw(c: Config, s: State, t: nat, s': State)
    requires t < |c.tasks| == |s.phases|
  {
    && (s.phases[t].Locked? || s.phases[t].Fetched?)
    && exists errno :: s' == s.(phases := s.phases[t := Leaving(Failed(errno, false))])
  }

  ghost predicate Release(c: Config, s: State, t: nat, s': State)
    requires t < |c.tasks| == |s.phases|
  {
    && s.phases[t].Leaving?
    && s' == s.(locks := s.locks - {c.tasks[t].key}, phases := s.phases[t := Finished(s.phases[t].outcome)])
  }

  ghost predicate StepOf(c: Config, s: State, t: nat, s': State) {
    && t < |c.tasks| == |s.phases|
    && (|| Acquire(c, s, t, s') || Fetch(c, s, t, s') || Put(c, s, t, s')
        || Get(c, s, t, s') || Throw(c, s, t, s') || Release(c, s, t, s'))
  }

  ghost predicate Step(c: Config, s: State, s': State) {
    exists t :: StepOf(c, s, t, s')
  }

  /** Any interleaving of the tasks' steps, starting before the first of them. */
  ghost predicate Run(c: Config, run: seq<State>) {
    && run != [] && Init(c, run[0])
    && forall i :: 0 <= i < |run| - 1 ==> Step(c, run[i], run[i + 1])
  }

  // ------------------------------------------------------------------------
  // Serial execution
  // ------------------------------------------------------------------------

  ghost function Effect(objects: Objects, task: Task): Objects {
    match task
    case WriteTask(key, offset, data) => objects[key := WriteAt(Object(objects, key), offset, data)]
    case ReadTask(_, _, _) => objects
  }

  ghost function Answer(objects: Objects, task: Task): Bytes {
    match task
    case WriteTask(_, _, _) => []
    case ReadTask(key, offset, size) => ReadAt(Object(objects, key), offset, size)
  }

  ghost predicate InRange(tasks: seq<Task>, log: seq<nat>) {
    forall i :: 0 <= i < |log| ==> log[i] < |tasks|
  }

  /** The tasks of the log run one after the other, each to completion. */
  ghost function Serial(objects: Objects, tasks: seq<Task>, log: seq<nat>): Objects
    requires InRange(tasks, log)
  {
    if log == [] then objects
    else Effect(Serial(objects, tasks, log[..|log| - 1]), tasks[log[|log| - 1]])
  }

  // ------------------------------------------------------------------------
  // The invariant
  // ------------------------------------------------------------------------

  /** A key is locked exactly while some task holds it, and by that task only. */
  ghost predicate Exclusive(c: Config, s: State)
    requires |c.tasks| == |s.phases|
  {
    && (forall key <- s.locks :: s.locks[key] < |c.tasks| && c.tasks[s.locks[key]].key == key)
    && (forall t :: 0 <= t < |c.tasks| ==>
          (s.phases[t].HoldsLock() <==> c.tasks[t].key in s.locks && s.locks[c.tasks[t].key] == t))
  }

  ghost predicate FetchedCurrent(c: Config, s: State)
    requires |c.tasks| == |s.phases|
  {
    forall t :: 0 <= t < |c.tasks| && s.phases[t].Fetched? ==>
      c.MustFetch(t) && s.phases[t].buf == Object(s.objects, c.tasks[t].key)
  }

  /** The log holds each task that took effect, once. */
  ghost predicate Logged(c: Config, s: State)
    requires |c.tasks| == |s.phases|
  {
    && InRange(c.tasks, s.log)
    && (forall i, j :: 0 <= i < j < |s.log| ==> s.log[i] != s.log[j])
    && (forall t :: 0 <= t < |c.tasks| ==> (t in s.log <==> s.phases[t].TookEffect()))
  }

  /** The storage and every answer are those of running the log serially. */
  ghost predicate Serialized(c: Config, start: Objects, s: State)
    requires |c.tasks| == |s.phases| && InRange(c.tasks, s.log)
  {
    && s.objects == Serial(start, c.tasks, s.log)
    && (forall i :: 0 <= i < |s.log| && s.phases[s.log[i]].TookEffect() && s.phases[s.log[i]].outcome.Done? ==>
          s.phases[s.log[i]].outcome.value == Answer(Serial(start, c.tasks, s.log[..i]), c.tasks[s.log[i]]))
  }

  ghost predicate Inv(c: Config, start: Objects, s: State) {
    && c.Valid() && |c.tasks| == |s.phases| && WithinBlocks(s.objects, c.blockSize)
    && Exclusive(c, s) && FetchedCurrent(c, s) && Logged(c, s) && Serialized(c, start, s)
  }

  lemma InitInv(c: Config, s: State)
    requires Init(c, s)
    ensures Inv(c, s.objects, s)
  {
  }

  lemma ExclusiveStep(c: Config, s: State, t: nat, s': State)
    requires StepOf(c, s, t, s') && Exclusive(c, s)
    ensures |s'.phases| == |s.phases| && Exclusive(c, s')
  {
    hide PutValue, Answer, ReadAt;
    if Acquire(c, s, t, s') {
      AcquireExclusive(c, s, t, s');
    } else if Release(c, s, t, s') {
      ReleaseExclusive(c, s, t, s');
    } else {
      assert s'.locks == s.locks && s.phases[t].HoldsLock() && s'.phases[t].HoldsLock();
      assert |s'.phases| == |s.phases| && forall u :: 0 <= u < |s.phases| && u != t ==> s'.phases[u] == s.phases[u];
      hide StepOf;
    }
  }

  lemma AcquireExclusive(c: Config, s: State, t: nat, s': State)
    requires t < |c.tasks| == |s.phases| && Acquire(c, s, t, s') && Exclusive(c, s)
    ensures |s'.phases| == |s.phases| && Exclusive(c, s')
  {
    assert forall u :: 0 <= u < |s.phases| && u != t ==> s'.phases[u] == s.phases[u];
  }

  lemma ReleaseExclusive(c: Config, s: State, t: nat, s': State)
    requires t < |c.tasks| == |s.phases| && Release(c, s, t, s') && Exclusive(c, s)
    ensures |s'.phases| == |s.phases| && Exclusive(c, s')
  {
    assert forall u :: 0 <= u < |s.phases| && u != t ==> s'.phases[u] == s.phases[u];
  }

  /** A merged put stores what a direct overwrite of the current object would. */
  lemma PutOverwrites(c: Config, s: State, t: nat, s': State)
    requires c.Valid() && t < |c.tasks| == |s.phases| && WithinBlocks(s.objects, c.blockSize)
    requires FetchedCurrent(c, s) && Put(c, s, t, s')
    ensures s'.objects == Effect(s.objects, c.tasks[t])
    ensures WithinBlocks(s'.objects, c.blockSize)
  {
    var task := c.tasks[t];
    assert |task.data| == c.blockSize ==> WriteAt(Object(s.objects, task.key), task.offset, task.data) == task.data;
  }

  lemma WithinStep(c: Config, s: State, t: nat, s': State)
    requires c.Valid() && StepOf(c, s, t, s') && WithinBlocks(s.objects, c.blockSize) && FetchedCurrent(c, s)
    ensures WithinBlocks(s'.objects, c.blockSize)
  {
    hide Answer, PutValue, WithinBlocks;
    if Put(c, s, t, s') {
      PutOverwrites(c, s, t, s');
    }
  }

  /** While a task holds a fetched copy, no other task changes the object. */
  lemma FetchedStep(c: Config, s: State, t: nat, s': State)
    requires c.Valid() && StepOf(c, s, t, s') && WithinBlocks(s.objects, c.blockSize)
    requires Exclusive(c, s) && FetchedCurrent(c, s)
    ensures |s'.phases| == |s.phases| && FetchedCurrent(c, s')
  {
    hide Answer, PutValue;
    if Fetch(c, s, t, s') {
      var block := Object(s.objects, c.tasks[t].key);
      assert ReadAt(block, 0, c.blockSize) == block;
    }
  }

  lemma LoggedStep(c: Config, s: State, t: nat, s': State)
    requires StepOf(c, s, t, s') && Logged(c, s)
    ensures |s'.phases| == |s.phases| && Logged(c, s')
  {
    hide Answer, PutValue;
    if s'.log != s.log {
      assert s'.log == s.log + [t] && !s.phases[t].TookEffect();
    }
  }

  lemma SerialSnoc(start: Objects, tasks: seq<Task>, log: seq<nat>, t: nat)
    requires InRange(tasks, log) && t < |tasks|
    ensures InRange(tasks, log + [t])
    ensures Serial(start, tasks, log + [t]) == Effect(Serial(start, tasks, log), tasks[t])
  {
    assert (log + [t])[..|log|] == log;
  }

  lemma QuietStep(c: Config, start: Objects, s: State, t: nat, s': State)
    requires StepOf(c, s, t, s') && Logged(c, s) && Serialized(c, start, s)
    requires !Put(c, s, t, s') && !Get(c, s, t, s')
    ensures |s'.phases| == |s.phases| && s'.log == s.log && InRange(c.tasks, s'.log) && Serialized(c, start, s')
  {
    hide Answer, PutValue, Serial;
  }

  lemma EffectStep(c: Config, start: Objects, s: State, t: nat, outcome: Outcome, s': State)
    requires t < |c.tasks| == |s.phases| && Logged(c, s) && Serialized(c, start, s)
    requires !s.phases[t].TookEffect()
    requires s'.log == s.log + [t] && s'.objects == Effect(s.objects, c.tasks[t])
    requires s'.phases == s.phases[t := Leaving(outcome)]
    requires outcome.Done? ==> outcome.value == Answer(s.objects, c.tasks[t])
    ensures InRange(c.tasks, s'.log) && Serialized(c, start, s')
  {
    hide Answer, Effect, Serial;
    SerialSnoc(start, c.tasks, s.log, t);
    forall i | 0 <= i < |s'.log| && s'.phases[s'.log[i]].TookEffect() && s'.phases[s'.log[i]].outcome.Done?
      ensures s'.phases[s'.log[i]].outcome.value == Answer(Serial(start, c.tasks, s'.log[..i]), c.tasks[s'.log[i]])
    {
      assert s'.log[..i] == s.log[..i];
      if i < |s.log| {
        assert s.log[i] in s.log;
      }
    }
  }

  lemma SerializedStep(c: Config, start: Objects, s: State, t: nat, s': State)
    requires c.Valid() && StepOf(c, s, t, s') && WithinBlocks(s.objects, c.blockSize)
    requires FetchedCurrent(c, s) && Logged(c, s) && Serialized(c, start, s)
    ensures |s'.phases| == |s.phases| && InRange(c.tasks, s'.log) && Serialized(c, start, s')
  {
    hide Serialized, PutValue, Logged, FetchedCurrent, WithinBlocks;
    if Put(c, s, t, s') {
      PutOverwrites(c, s, t, s');
      EffectStep(c, start, s, t, s'.phases[t].outcome, s');
    } else if Get(c, s, t, s') {
      EffectStep(c, start, s, t, s'.phases[t].outcome, s');
    } else {
      QuietStep(c, start, s, t, s');
    }
  }

  lemma StepInv(c: Config, start: Objects, s: State, s': State)
    requires Inv(c, start, s) && Step(c, s, s')
    ensures Inv(c, start, s')
  {
    var t :| StepOf(c, s, t, s');
    hide StepOf, Exclusive, FetchedCurrent, Logged, Serialized, WithinBlocks;
    ExclusiveStep(c, s, t, s');
    WithinStep(c, s, t, s');
    FetchedStep(c, s, t, s');
    LoggedStep(c, s, t, s');
    SerializedStep(c, start, s, t, s');
  }

  lemma {:induction false} RunInv(c: Config, run: seq<State>, i: nat)
    requires Run(c, run) && i < |run|
    ensures Inv(c, run[0].objects, run[i])
  {
    if i == 0 {
      InitInv(c, run[0]);
    } else {
      RunInv(c, run, i - 1);
      assert Step(c, run[i - 1], run[i - 1 + 1]);
      StepInv(c, run[0].objects, run[i - 1], run[i]);
    }
  }

  // ------------------------------------------------------------------------
  // What holds over every run
  // ------------------------------------------------------------------------

  /**
   * In every state of every interleaving the storage, and every answer given so
   * far, are those of a serial execution of the tasks that took effect; each such
   * task occurs once in it.
   */
  lemma TasksSerialize(c: Config, run: seq<State>, i: nat)
    requires Run(c, run) && i < |run|
    ensures |run[i].phases| == |c.tasks|
    ensures Logged(c, run[i]) && Serialized(c, run[0].objects, run[i])
    ensures WithinBlocks(run[i].objects, c.blockSize)
  {
    RunInv(c, run, i);
  }

  /** A task that has ended holds no lock, even if it failed; with no task under way no key is locked. */
  lemma LocksAreReleased(c: Config, run: seq<State>, i: nat)
    requires Run(c, run) && i < |run|
    ensures |run[i].phases| == |c.tasks|
    ensures forall key <- run[i].locks ::
              run[i].locks[key] < |c.tasks| && run[i].phases[run[i].locks[key]].HoldsLock()
    ensures (forall t :: 0 <= t < |c.tasks| ==> run[i].phases[t].Finished?) ==> run[i].locks == map[]
  {
    RunInv(c, run, i);
    var s := run[i];
    forall key <- s.locks ensures s.locks[key] < |c.tasks| && s.phases[s.locks[key]].HoldsLock() {
      assert c.tasks[s.locks[key]].key == key;
    }
  }

  /** The step a lock holder takes next, when no call throws. */
  ghost function Advanced(c: Config, s: State, t: nat): State
    requires t < |c.tasks| == |s.phases| && s.phases[t].HoldsLock() && (s.phases[t].Fetched? ==> c.MustFetch(t))
  {
    if s.phases[t].Leaving? then
      s.(locks := s.locks - {c.tasks[t].key}, phases := s.phases[t := Finished(s.phases[t].outcome)])
    else if s.phases[t].Locked? && c.MustFetch(t) then
      s.(phases := s.phases[t := Fetched(ReadAt(Object(s.objects, c.tasks[t].key), 0, c.blockSize))])
    else if c.tasks[t].ReadTask? then
      s.(phases := s.phases[t := Leaving(Done(Answer(s.objects, c.tasks[t])))], log := s.log + [t])
    else
      s.(objects := s.objects[c.tasks[t].key := PutValue(c, s, t)],
         phases := s.phases[t := Leaving(Done([]))], log := s.log + [t])
  }

  /** A step of task u in which no call throws. */
  ghost predicate Succeeds(c: Config, s: State, u: nat, s': State) {
    StepOf(c, s, u, s') && (u < |s'.phases| && s'.phases[u].Leaving? ==> s'.phases[u].outcome.Done?)
  }

  /** The locks never deadlock: while some task has not ended, some task can move on without failing. */
  lemma SomeTaskAdvances(c: Config, run: seq<State>, i: nat, t: nat)
    requires Run(c, run) && i < |run| && t < |c.tasks|
    requires |run[i].phases| == |c.tasks| ==> !run[i].phases[t].Finished?
    ensures exists u, s' :: Succeeds(c, run[i], u, s')
  {
    RunInv(c, run, i);
    var s := run[i];
    var key := c.tasks[t].key;
    if s.phases[t].Waiting? && key !in s.locks {
      var s' := s.(locks := s.locks[key := t], phases := s.phases[t := Locked]);
      assert s'.phases[t] == Locked;
      assert Succeeds(c, s, t, s');
    } else {
      var u := if s.phases[t].Waiting? then s.locks[key] else t;
      assert c.tasks[u].key == key && s.phases[u].HoldsLock();
      hide Inv;
      AdvancedSucceeds(c, s, u);
    }
  }

  lemma AdvancedSucceeds(c: Config, s: State, t: nat)
    requires t < |c.tasks| == |s.phases| && s.phases[t].HoldsLock() && (s.phases[t].Fetched? ==> c.MustFetch(t))
    ensures Succeeds(c, s, t, Advanced(c, s, t))
  {
    hide Answer, PutValue, ReadAt;
    var s' := Advanced(c, s, t);
    if s.phases[t].Fetched? || (s.phases[t].Locked? && c.tasks[t].WriteTask? && !c.MustFetch(t)) {
      assert PutEnding(c, s, t, Done([]), s');
    }
  }

  /** The steps a task has left at most. */
  function Rank(p: Phase): nat {
    match p
    case Waiting => 4
    case Locked => 3
    case Fetched(_) => 2
    case Leaving(_) => 1
    case Finished(_) => 0
  }

  function Ranks(phases: seq<Phase>): nat {
    if phases == [] then 0 else Ranks(phases[..|phases| - 1]) + Rank(phases[|phases| - 1])
  }

  lemma {:induction false} RanksDrop(phases: seq<Phase>, t: nat, p: Phase)
    requires t < |phases|
    ensures Ranks(phases[t := p]) == Ranks(phases) - Rank(phases[t]) + Rank(p)
  {
    var n := |phases| - 1;
    if t == n {
      assert phases[t := p][..n] == phases[..n];
    } else {
      RanksDrop(phases[..n], t, p);
      assert phases[t := p][..n] == phases[..n][t := p];
    }
  }

  lemma {:induction false} RanksBound(phases: seq<Phase>)
    ensures Ranks(phases) <= 4 * |phases|
  {
    if phases == [] {
    } else {
      RanksBound(phases[..|phases| - 1]);
    }
  }

  lemma StepPhase(c: Config, s: State, t: nat, s': State) returns (p: Phase)
    requires StepOf(c, s, t, s')
    ensures t < |s.phases| && s'.phases == s.phases[t := p] && Rank(p) < Rank(s.phases[t])
  {
    hide Answer, PutValue, ReadAt, Ranks;
    p := s'.phases[t];
    if Acquire(c, s, t, s') {
    } else if Fetch(c, s, t, s') {
    } else if Put(c, s, t, s') {
    } else if Get(c, s, t, s') {
    } else if Release(c, s, t, s') {
    } else {
      var errno :| s' == s.(phases := s.phases[t := Leaving(Failed(errno, false))]);
    }
  }

  lemma StepRanks(c: Config, s: State, s': State)
    requires Step(c, s, s')
    ensures Ranks(s'.phases) < Ranks(s.phases)
  {
    var t :| StepOf(c, s, t, s');
    var p := StepPhase(c, s, t, s');
    hide StepOf;
    RanksDrop(s.phases, t, p);
  }

  lemma {:induction false} RunRanks(c: Config, run: seq<State>, i: nat)
    requires Run(c, run) && i < |run|
    ensures i + Ranks(run[i].phases) <= 4 * |c.tasks|
  {
    if i == 0 {
      RanksBound(run[0].phases);
    } else {
      RunRanks(c, run, i - 1);
      hide Step;
      assert Step(c, run[i - 1], run[i - 1 + 1]);
      StepRanks(c, run[i - 1], run[i]);
    }
  }

  /** Every run is finite, and one that cannot go on has ended all its tasks. */
  lemma RunsEnd(c: Config, run: seq<State>)
    requires Run(c, run)
    ensures |run| <= 4 * |c.tasks| + 1
    ensures var s := run[|run| - 1];
            && |s.phases| == |c.tasks|
            && ((forall s' :: !Step(c, s, s')) <==> forall t :: 0 <= t < |c.tasks| ==> s.phases[t].Finished?)
  {
    var last := |run| - 1;
    var s := run[last];
    RunRanks(c, run, last);
    RunInv(c, run, last);
    hide Inv, Run;
    if t :| 0 <= t < |c.tasks| && !s.phases[t].Finished? {
      SomeTaskAdvances(c, run, last, t);
      var u, s' :| Succeeds(c, s, u, s');
      assert Step(c, s, s');
    }
  }

  // ------------------------------------------------------------------------
  // The serial order respects real time
  // ------------------------------------------------------------------------

  lemma {:induction false} LogGrows(c: Config, run: seq<State>, i: nat, j: nat)
    requires Run(c, run) && i <= j < |run|
    ensures run[i].log <= run[j].log
    decreases j
  {
    if i == j {
    } else {
      LogGrows(c, run, i, j - 1);
      assert Step(c, run[j - 1], run[j - 1 + 1]);
      StepLogs(c, run[j - 1], run[j]);
    }
  }

  lemma StepLogs(c: Config, s: State, s': State)
    requires Step(c, s, s')
    ensures s.log <= s'.log
  {
    hide Answer, PutValue, ReadAt;
  }

  /** A task that ended before another took its lock comes before it in the serial order. */
  lemma OrderRespectsTime(c: Config, run: seq<State>, i: nat, j: nat, t: nat, u: nat, x: nat, y: nat)
    requires Run(c, run) && i <= j < |run| && t < |c.tasks| && u < |c.tasks|
    requires |run[i].phases| == |c.tasks| ==> run[i].phases[t].TookEffect() && run[i].phases[u].Waiting?
    requires x < |run[j].log| && run[j].log[x] == t
    requires y < |run[j].log| && run[j].log[y] == u
    ensures x < y
  {
    RunInv(c, run, i);
    RunInv(c, run, j);
    LogGrows(c, run, i, j);
    var log, log' := run[i].log, run[j].log;
    assert t in log && u !in log;
    var k :| 0 <= k < |log| && log[k] == t;
    assert log'[k] == t && k == x;
  }

  // ------------------------------------------------------------------------
  // No write is lost
  // ------------------------------------------------------------------------

  predicate Touches(task: Task, key: string, o: nat) {
    task.WriteTask? && task.key == key && task.offset <= o < task.offset + |task.data|
  }

  lemma EffectByte(objects: Objects, task: Task, key: string, o: nat)
    ensures ByteAt(Object(Effect(objects, task), key), o) ==
            if Touches(task, key, o) then task.data[o - task.offset] else ByteAt(Object(objects, key), o)
  {
    if task.WriteTask? {
      WriteAtByte(Object(objects, task.key), task.offset, task.data, o);
    }
    hide WriteAt, ByteAt;
  }

  lemma {:induction false} UntouchedByte(start: Objects, tasks: seq<Task>, log: seq<nat>, key: string, o: nat)
    requires InRange(tasks, log) && forall i :: 0 <= i < |log| ==> !Touches(tasks[log[i]], key, o)
    ensures ByteAt(Object(Serial(start, tasks, log), key), o) == ByteAt(Object(start, key), o)
  {
    hide Effect, Object, ByteAt;
    if log == [] {
    } else {
      var n := |log| - 1;
      UntouchedByte(start, tasks, log[..n], key, o);
      EffectByte(Serial(start, tasks, log[..n]), tasks[log[n]], key, o);
    }
  }

  /** In any serial order a byte written by one task only ends up as that task wrote it. */
  lemma {:induction false} WrittenByteSurvives(start: Objects, tasks: seq<Task>, log: seq<nat>, t: nat, o: nat)
    requires InRange(tasks, log) && t in log && Touches(tasks[t], tasks[t].key, o)
    requires forall i :: 0 <= i < |log| && log[i] != t ==> !Touches(tasks[log[i]], tasks[t].key, o)
    ensures ByteAt(Object(Serial(start, tasks, log), tasks[t].key), o) == tasks[t].data[o - tasks[t].offset]
  {
    hide Effect, Object, ByteAt;
    var n := |log| - 1;
    EffectByte(Serial(start, tasks, log[..n]), tasks[log[n]], tasks[t].key, o);
    if log[n] != t {
      WrittenByteSurvives(start, tasks, log[..n], t, o);
    }
  }

  /** The write of buf at offset runs as the tasks first, first + 1, ... of the configuration. */
  ghost predicate Requested(c: Config, name: Naming, offset: nat, buf: Bytes, ps: seq<Piece>, first: nat) {
    && c.blockSize > 0 && Partition(ps, offset, |buf|, c.blockSize)
    && first + |ps| <= |c.tasks|
    && forall k :: 0 <= k < |ps| ==>
         c.tasks[first + k] ==
         WriteTask(name(ps[k].blockId), ps[k].blockOffset, ReadAt(buf, ps[k].bufOffset, ps[k].size))
  }

  /** No task outside first, ..., last - 1 writes a byte that one of them writes. */
  ghost predicate Unrivalled(c: Config, first: nat, last: nat)
    requires first <= last <= |c.tasks|
  {
    forall t, u, o: nat ::
      (first <= t < last && 0 <= u < |c.tasks| && !(first <= u < last) && Touches(c.tasks[t], c.tasks[t].key, o))
      ==> !Touches(c.tasks[u], c.tasks[t].key, o)
  }

  lemma OwnPiecesDiffer(
    c: Config, name: Naming, offset: nat, buf: Bytes, ps: seq<Piece>, first: nat, k: nat, u: nat, o: nat)
    requires Requested(c, name, offset, buf, ps, first) && Injective(name)
    requires offset + |buf| <= UINT64_LIMIT
    requires k < |ps| && first <= u < first + |ps| && u != first + k
    ensures !Touches(c.tasks[u], c.tasks[first + k].key, o)
  {
    var p, q := ps[k], ps[u - first];
    assert c.tasks[u] == WriteTask(name(q.blockId), q.blockOffset, ReadAt(buf, q.bufOffset, q.size));
    assert c.tasks[first + k].key == name(p.blockId);
    ProductGrows(p.blockId, c.blockSize);
    ProductGrows(q.blockId, c.blockSize);
    assert IsId(p.blockId) && IsId(q.blockId);
  }

  /** The task of a request that writes a given position. */
  lemma TaskAt(c: Config, name: Naming, offset: nat, buf: Bytes, ps: seq<Piece>, first: nat, pos: nat)
    requires Requested(c, name, offset, buf, ps, first) && offset <= pos < offset + |buf|
    ensures var id, o := GetBlockId(pos, c.blockSize), GetBlockOffset(pos, c.blockSize);
            var k: int := id - GetBlockId(offset, c.blockSize);
            && 0 <= k < |ps| && c.tasks[first + k].WriteTask? && c.tasks[first + k].key == name(id)
            && Touches(c.tasks[first + k], name(id), o)
            && c.tasks[first + k].data[o - c.tasks[first + k].offset] == buf[pos - offset]
  {
    PartitionLocates(ps, offset, |buf|, c.blockSize, pos);
  }

  lemma SurvivingByte(
    c: Config, start: Objects, s: State, name: Naming, offset: nat, buf: Bytes, ps: seq<Piece>, first: nat, pos: nat)
    requires |s.phases| == |c.tasks| && Logged(c, s) && s.objects == Serial(start, c.tasks, s.log) && Injective(name)
    requires Requested(c, name, offset, buf, ps, first) && Unrivalled(c, first, first + |ps|)
    requires offset + |buf| <= UINT64_LIMIT && offset <= pos < offset + |buf|
    requires forall t :: first <= t < first + |ps| ==> s.phases[t].TookEffect()
    ensures buf[pos - offset] == FlatByte(View(s.objects, name), c.blockSize, pos)
  {
    TaskAt(c, name, offset, buf, ps, first, pos);
    hide Serial, Requested, Injective, Located;
    var id, o := GetBlockId(pos, c.blockSize), GetBlockOffset(pos, c.blockSize);
    var k: int := id - GetBlockId(offset, c.blockSize);
    var t := first + k;
    forall i | 0 <= i < |s.log| && s.log[i] != t ensures !Touches(c.tasks[s.log[i]], name(id), o) {
      if first <= s.log[i] < first + |ps| {
        OwnPiecesDiffer(c, name, offset, buf, ps, first, k, s.log[i], o);
      }
    }
    WrittenByteSurvives(start, c.tasks, s.log, t, o);
  }

  /**
   * A write whose bytes no other task writes survives every interleaving: once
   * its tasks have taken effect the flat file holds its buffer.
   */
  lemma DisjointWritesSurvive(
    c: Config, run: seq<State>, i: nat, name: Naming, offset: nat, buf: Bytes, ps: seq<Piece>, first: nat)
    requires Run(c, run) && i < |run| && Injective(name)
    requires Requested(c, name, offset, buf, ps, first) && Unrivalled(c, first, first + |ps|)
    requires offset + |buf| <= UINT64_LIMIT
    requires |run[i].phases| == |c.tasks|
    requires forall t :: first <= t < first + |ps| ==> run[i].phases[t].TookEffect()
    ensures ReadRange(View(run[i].objects, name), c.blockSize, offset, buf)
  {
    TasksSerialize(c, run, i);
    SurvivingRange(c, run[0].objects, run[i], name, offset, buf, ps, first);
  }

  lemma SurvivingRange(
    c: Config, start: Objects, s: State, name: Naming, offset: nat, buf: Bytes, ps: seq<Piece>, first: nat)
    requires |s.phases| == |c.tasks| && Logged(c, s) && s.objects == Serial(start, c.tasks, s.log) && Injective(name)
    requires Requested(c, name, offset, buf, ps, first) && Unrivalled(c, first, first + |ps|)
    requires offset + |buf| <= UINT64_LIMIT
    requires forall t :: first <= t < first + |ps| ==> s.phases[t].TookEffect()
    ensures ReadRange(View(s.objects, name), c.blockSize, offset, buf)
  {
    assert c.blockSize > 0 && first + |ps| <= |c.tasks|;
    hide Requested, Unrivalled, Logged, Serial, Injective, FlatByte, View;
    forall j | 0 <= j < |buf| ensures buf[j] == FlatByte(View(s.objects, name), c.blockSize, offset + j) {
      SurvivingByte(c, start, s, name, offset, buf, ps, first, offset + j);
    }
  }
}
