/**
 * A write that fails returns with its first error, while other block tasks of it
 * may not have begun. What such tasks can still do to a byte written since.
 */
module Leftovers {
  import opened FlatFile
  import opened BlockStore
  import opened BlockLocks

  ghost predicate Path(c: Config, path: seq<State>) {
    path != [] && forall i :: 0 <= i < |path| - 1 ==> Step(c, path[i], path[i + 1])
  }

  ghost predicate Leads(c: Config, s: State, s': State) {
    exists path :: Path(c, path) && path[0] == s && path[|path| - 1] == s'
  }

  ghost function StoredByte(s: State, key: string, o: nat): byte {
    ByteAt(Object(s.objects, key), o)
  }

  /** Whatever the tasks do from here on, the byte keeps its value. */
  ghost predicate ByteStays(c: Config, s: State, key: string, o: nat) {
    forall s' :: Leads(c, s, s') ==> StoredByte(s', key, o) == StoredByte(s, key, o)
  }

  /** The task has not read or written its object yet, and may still do so. */
  predicate Unspent(p: Phase) {
    p.Waiting? || p.Locked? || p.Fetched?
  }

  /** Every task that may still write the byte writes this value. */
  ghost predicate RestAgrees(c: Config, s: State, key: string, o: nat, v: byte) {
    forall t :: 0 <= t < |c.tasks| && t < |s.phases| && Unspent(s.phases[t]) && Touches(c.tasks[t], key, o) ==>
      c.tasks[t].data[o - c.tasks[t].offset] == v
  }

  // ------------------------------------------------------------------------
  // Agreeing tasks leave the byte alone
  // ------------------------------------------------------------------------

  lemma AgreeingStep(c: Config, start: Objects, s: State, s': State, key: string, o: nat)
    requires Inv(c, start, s) && Step(c, s, s') && RestAgrees(c, s, key, o, StoredByte(s, key, o))
    ensures RestAgrees(c, s', key, o, StoredByte(s, key, o)) && StoredByte(s', key, o) == StoredByte(s, key, o)
  {
    hide StepOf, Inv, Effect, StoredByte, Touches, Rank, RestAgrees;
    var t: nat :| StepOf(c, s, t, s');
    var p := StepDoes(c, start, s, t, s');
    SpentOnly(c, s, t, p, s', key, o, StoredByte(s, key, o));
    if s'.objects == s.objects {
      SameByte(s, s', key, o);
    } else {
      EffectOn(s, c.tasks[t], s', key, o);
      AgreeingTask(c, s, t, key, o, StoredByte(s, key, o));
    }
  }

  lemma SameByte(s: State, s': State, key: string, o: nat)
    requires s'.objects == s.objects
    ensures StoredByte(s', key, o) == StoredByte(s, key, o)
  {
  }

  lemma AgreeingTask(c: Config, s: State, t: nat, key: string, o: nat, v: byte)
    requires RestAgrees(c, s, key, o, v) && t < |c.tasks| == |s.phases| && Unspent(s.phases[t])
    ensures Touches(c.tasks[t], key, o) ==> c.tasks[t].data[o - c.tasks[t].offset] == v
  {
  }

  lemma EffectOn(s: State, task: Task, s': State, key: string, o: nat)
    requires s'.objects == Effect(s.objects, task)
    ensures StoredByte(s', key, o) ==
            if Touches(task, key, o) then task.data[o - task.offset] else StoredByte(s, key, o)
  {
    EffectByte(s.objects, task, key, o);
    hide Effect, Object, ByteAt;
  }

  /** No task becomes unspent. */
  lemma SpentOnly(c: Config, s: State, t: nat, p: Phase, s': State, key: string, o: nat, v: byte)
    requires t < |s.phases| && s'.phases == s.phases[t := p] && Rank(p) < Rank(s.phases[t])
    requires RestAgrees(c, s, key, o, v)
    ensures RestAgrees(c, s', key, o, v)
  {
    hide Touches;
  }

  lemma StepDoes(c: Config, start: Objects, s: State, t: nat, s': State) returns (p: Phase)
    requires Inv(c, start, s) && StepOf(c, s, t, s')
    ensures t < |c.tasks| == |s.phases| && s'.phases == s.phases[t := p] && Rank(p) < Rank(s.phases[t])
    ensures s'.objects == s.objects || (s'.objects == Effect(s.objects, c.tasks[t]) && Unspent(s.phases[t]))
  {
    assert t < |c.tasks|;
    hide StepOf, Exclusive, Logged, Serialized, FetchedCurrent, WithinBlocks, Effect, Rank;
    p := StepPhase(c, s, t, s');
    StepStores(c, s, t, s');
  }

  /** A step changes the storage by the effect of an unspent task, or not at all. */
  lemma StepStores(c: Config, s: State, t: nat, s': State)
    requires c.Valid() && WithinBlocks(s.objects, c.blockSize) && |c.tasks| == |s.phases| && FetchedCurrent(c, s)
    requires StepOf(c, s, t, s')
    ensures s'.objects == s.objects || (s'.objects == Effect(s.objects, c.tasks[t]) && Unspent(s.phases[t]))
  {
    hide Answer, PutValue, Effect, ReadAt;
    if Put(c, s, t, s') {
      PutOverwrites(c, s, t, s');
    }
  }

  lemma {:induction false} AgreeingPath(c: Config, start: Objects, path: seq<State>, i: nat, key: string, o: nat)
    requires Path(c, path) && i < |path| && Inv(c, start, path[0])
    requires RestAgrees(c, path[0], key, o, StoredByte(path[0], key, o))
    ensures Inv(c, start, path[i]) && StoredByte(path[i], key, o) == StoredByte(path[0], key, o)
    ensures RestAgrees(c, path[i], key, o, StoredByte(path[0], key, o))
  {
    hide Inv, Step, StoredByte, RestAgrees;
    if i == 0 {
    } else {
      AgreeingPath(c, start, path, i - 1, key, o);
      assert Step(c, path[i - 1], path[i - 1 + 1]);
      StepInv(c, start, path[i - 1], path[i]);
      AgreeingStep(c, start, path[i - 1], path[i], key, o);
    }
  }

  // ------------------------------------------------------------------------
  // Any other unspent task can be the next to write
  // ------------------------------------------------------------------------

  lemma LeadsSelf(c: Config, s: State)
    ensures Leads(c, s, s)
  {
    assert Path(c, [s]) && [s][|[s]| - 1] == s;
  }

  lemma LeadsOn(c: Config, s0: State, s: State, t: nat, s': State)
    requires Leads(c, s0, s) && StepOf(c, s, t, s')
    ensures Leads(c, s0, s')
  {
    assert Step(c, s, s');
    hide Step, StepOf;
    var path :| Path(c, path) && path[0] == s0 && path[|path| - 1] == s;
    var longer := path + [s'];
    forall i | 0 <= i < |longer| - 1 ensures Step(c, longer[i], longer[i + 1]) {
      if i < |path| - 1 {
        assert Step(c, path[i], path[i + 1]);
      }
    }
    assert Path(c, longer) && longer[|longer| - 1] == s';
  }

  lemma GoOn(c: Config, start: Objects, s0: State, s: State, t: nat, s': State)
    requires Leads(c, s0, s) && Inv(c, start, s) && StepOf(c, s, t, s')
    ensures Leads(c, s0, s') && Inv(c, start, s')
  {
    hide Inv, Leads, StepOf;
    LeadsOn(c, s0, s, t, s');
    StepInv(c, start, s, s');
  }

  lemma PutNow(c: Config, start: Objects, s: State, t: nat)
    requires Inv(c, start, s) && t < |c.tasks| && c.tasks[t].WriteTask?
    requires s.phases[t].Fetched? || (s.phases[t].Locked? && !c.MustFetch(t))
    ensures StepOf(c, s, t, Advanced(c, s, t)) && Advanced(c, s, t).objects == Effect(s.objects, c.tasks[t])
  {
    AdvancedSucceeds(c, s, t);
    assert PutEnding(c, s, t, Done([]), Advanced(c, s, t));
    hide Exclusive, Logged, Serialized;
    PutOverwrites(c, s, t, Advanced(c, s, t));
  }

  lemma FetchNow(c: Config, start: Objects, s: State, t: nat)
    requires Inv(c, start, s) && t < |c.tasks| && s.phases[t].Locked? && c.MustFetch(t)
    ensures var s' := Advanced(c, s, t);
            StepOf(c, s, t, s') && |s'.phases| == |s.phases| && s'.phases[t].Fetched? && s'.objects == s.objects
  {
    AdvancedSucceeds(c, s, t);
    hide Exclusive, Logged, Serialized, FetchedCurrent, WithinBlocks, ReadAt;
  }

  /** A task that holds its lock goes on to write. */
  lemma LockedWrites(c: Config, start: Objects, s0: State, s: State, t: nat) returns (s': State)
    requires Leads(c, s0, s) && Inv(c, start, s) && t < |c.tasks| == |s.phases| && c.tasks[t].WriteTask?
    requires s.phases[t].Locked? || s.phases[t].Fetched?
    ensures Leads(c, s0, s') && s'.objects == Effect(s.objects, c.tasks[t])
  {
    var s1 := s;
    if s.phases[t].Locked? && c.MustFetch(t) {
      FetchNow(c, start, s, t);
      s1 := Advanced(c, s, t);
      GoOn(c, start, s0, s, t, s1);
    }
    PutNow(c, start, s1, t);
    s' := Advanced(c, s1, t);
    hide Leads, Inv, StepOf, Advanced, Effect;
    LeadsOn(c, s0, s1, t, s');
  }

  lemma ThrowNow(c: Config, s: State, u: nat)
    requires u < |c.tasks| == |s.phases| && (s.phases[u].Locked? || s.phases[u].Fetched?)
    ensures StepOf(c, s, u, s.(phases := s.phases[u := Leaving(Failed(0, false))]))
  {
    assert Throw(c, s, u, s.(phases := s.phases[u := Leaving(Failed(0, false))]));
    hide PutValue, Answer, ReadAt;
  }

  ghost function Released(c: Config, s: State, u: nat): State
    requires u < |c.tasks| == |s.phases| && s.phases[u].Leaving?
  {
    s.(locks := s.locks - {c.tasks[u].key}, phases := s.phases[u := Finished(s.phases[u].outcome)])
  }

  lemma ReleaseNow(c: Config, s: State, u: nat)
    requires u < |c.tasks| == |s.phases| && s.phases[u].Leaving?
    ensures StepOf(c, s, u, Released(c, s, u))
  {
    assert Release(c, s, u, Released(c, s, u));
    hide PutValue, Answer, ReadAt;
  }

  lemma AcquireNow(c: Config, s: State, t: nat)
    requires t < |c.tasks| == |s.phases| && s.phases[t].Waiting? && c.tasks[t].key !in s.locks
    ensures StepOf(c, s, t, s.(locks := s.locks[c.tasks[t].key := t], phases := s.phases[t := Locked]))
  {
    assert Acquire(c, s, t, s.(locks := s.locks[c.tasks[t].key := t], phases := s.phases[t := Locked]));
    hide PutValue, Answer, ReadAt;
  }

  lemma HolderOf(c: Config, start: Objects, s: State, key: string) returns (u: nat)
    requires Inv(c, start, s) && key in s.locks
    ensures u < |c.tasks| == |s.phases| && c.tasks[u].key == key && s.phases[u].HoldsLock()
  {
    u := s.locks[key];
    hide Logged, Serialized, FetchedCurrent, WithinBlocks;
  }

  /** Whoever holds the lock of a key may throw, and then lets go of it. */
  lemma HolderLeaves(c: Config, start: Objects, s0: State, s: State, u: nat) returns (s': State)
    requires Leads(c, s0, s) && Inv(c, start, s) && u < |c.tasks| == |s.phases| && s.phases[u].HoldsLock()
    ensures Leads(c, s0, s') && Inv(c, start, s') && c.tasks[u].key !in s'.locks
    ensures |s'.phases| == |s.phases| && forall t :: 0 <= t < |s.phases| && t != u ==> s'.phases[t] == s.phases[t]
  {
    hide Inv, Leads, StepOf;
    var s1 := s;
    if !s.phases[u].Leaving? {
      ThrowNow(c, s, u);
      s1 := s.(phases := s.phases[u := Leaving(Failed(0, false))]);
      GoOn(c, start, s0, s, u, s1);
    }
    ReleaseNow(c, s1, u);
    s' := Released(c, s1, u);
    GoOn(c, start, s0, s1, u, s');
  }

  /** A task that has not begun gets its lock. */
  lemma WaitingAcquires(c: Config, start: Objects, s0: State, s: State, t: nat) returns (s': State)
    requires Leads(c, s0, s) && Inv(c, start, s) && t < |c.tasks| == |s.phases| && s.phases[t].Waiting?
    ensures Leads(c, s0, s') && Inv(c, start, s') && t < |c.tasks| == |s'.phases| && s'.phases[t].Locked?
  {
    hide Inv, Leads, StepOf;
    var key := c.tasks[t].key;
    var s1 := s;
    if key in s.locks {
      var u := HolderOf(c, start, s, key);
      s1 := HolderLeaves(c, start, s0, s, u);
    }
    AcquireNow(c, s1, t);
    s' := s1.(locks := s1.locks[key := t], phases := s1.phases[t := Locked]);
    GoOn(c, start, s0, s1, t, s');
  }

  lemma UnspentWrites(c: Config, start: Objects, s: State, t: nat, key: string, o: nat) returns (s': State)
    requires Inv(c, start, s) && t < |c.tasks| == |s.phases| && Unspent(s.phases[t]) && Touches(c.tasks[t], key, o)
    ensures Leads(c, s, s') && StoredByte(s', key, o) == c.tasks[t].data[o - c.tasks[t].offset]
  {
    LeadsSelf(c, s);
    hide Inv, Leads, Effect, StoredByte;
    var s1 := s;
    if s.phases[t].Waiting? {
      s1 := WaitingAcquires(c, start, s, s, t);
    }
    s' := LockedWrites(c, start, s, s1, t);
    EffectOn(s1, c.tasks[t], s', key, o);
  }

  /**
   * In every state of every run, a stored byte keeps its value through all that may
   * still happen exactly when every task that has not yet read or written its
   * object, and would write the byte, would write that value. A task left over from
   * a failed write therefore overwrites what was written after the failure.
   */
  lemma ByteStaysExactly(c: Config, run: seq<State>, i: nat, key: string, o: nat)
    requires Run(c, run) && i < |run|
    ensures ByteStays(c, run[i], key, o) <==> RestAgrees(c, run[i], key, o, StoredByte(run[i], key, o))
  {
    var s, start := run[i], run[0].objects;
    RunInv(c, run, i);
    assert |s.phases| == |c.tasks|;
    hide Inv, StoredByte, Touches, Run;
    var v := StoredByte(s, key, o);
    if RestAgrees(c, s, key, o, v) {
      forall s' | Leads(c, s, s') ensures StoredByte(s', key, o) == v {
        var path :| Path(c, path) && path[0] == s && path[|path| - 1] == s';
        AgreeingPath(c, start, path, |path| - 1, key, o);
      }
    } else {
      var t :| 0 <= t < |c.tasks| && Unspent(s.phases[t]) && Touches(c.tasks[t], key, o)
               && c.tasks[t].data[o - c.tasks[t].offset] != v;
      var s' := UnspentWrites(c, start, s, t, key, o);
    }
  }

  // ------------------------------------------------------------------------
  // An example
  // ------------------------------------------------------------------------

  /** The first two tasks are one write's, which fails on its first block; the third is a later write's. */
  const TASKS := [WriteTask("a", 0, [9]), WriteTask("b", 0, [1]), WriteTask("b", 0, [2])]
  const CONFIG := Config(1, false, TASKS)
  const ENDED := Finished(Failed(5, false))
  const OVERTAKEN := State(map["b" := [2]], map[], [ENDED, Waiting, Finished(Done([]))], [2])

  ghost function OvertakingRun(): seq<State> {
    [State(map[], map[], [Waiting, Waiting, Waiting], []),
     State(map[], map["a" := 0], [Locked, Waiting, Waiting], []),
     State(map[], map["a" := 0], [Leaving(Failed(5, false)), Waiting, Waiting], []),
     State(map[], map[], [ENDED, Waiting, Waiting], []),
     State(map[], map["b" := 2], [ENDED, Waiting, Locked], []),
     State(map["b" := [2]], map["b" := 2], [ENDED, Waiting, Leaving(Done([]))], [2]),
     OVERTAKEN]
  }

  lemma FailingSteps()
    ensures var run := OvertakingRun();
            StepOf(CONFIG, run[0], 0, run[1]) && StepOf(CONFIG, run[1], 0, run[2]) && StepOf(CONFIG, run[2], 0, run[3])
  {
    var run := OvertakingRun();
    hide PutValue, Answer, ReadAt;
    assert Acquire(CONFIG, run[0], 0, run[1]);
    assert Throw(CONFIG, run[1], 0, run[2]) by {
      assert run[2] == run[1].(phases := run[1].phases[0 := Leaving(Failed(5, false))]);
    }
    assert map["a" := 0 as nat] - {"a"} == map[];
    assert Release(CONFIG, run[2], 0, run[3]);
  }

  lemma OvertakingSteps()
    ensures var run := OvertakingRun();
            StepOf(CONFIG, run[3], 2, run[4]) && StepOf(CONFIG, run[4], 2, run[5]) && StepOf(CONFIG, run[5], 2, run[6])
  {
    var run := OvertakingRun();
    assert Acquire(CONFIG, run[3], 2, run[4]);
    assert PutEnding(CONFIG, run[4], 2, Done([]), run[5]);
    assert map["b" := 2 as nat] - {"b"} == map[];
    assert Release(CONFIG, run[5], 2, run[6]);
  }

  /** The later write has ended and its byte is stored, and the task left over may still overwrite it. */
  lemma LeftoverOverwrites()
    ensures Run(CONFIG, OvertakingRun()) && OVERTAKEN == OvertakingRun()[6]
    ensures StoredByte(OVERTAKEN, "b", 0) == 2 && !ByteStays(CONFIG, OVERTAKEN, "b", 0)
  {
    OvertakingIsRun();
    assert Unspent(OVERTAKEN.phases[1]) && Touches(TASKS[1], "b", 0) && TASKS[1].data[0] == 1;
    assert !RestAgrees(CONFIG, OVERTAKEN, "b", 0, 2);
    hide Run, ByteStays, RestAgrees;
    ByteStaysExactly(CONFIG, OvertakingRun(), 6, "b", 0);
  }

  lemma OvertakingIsRun()
    ensures Run(CONFIG, OvertakingRun())
  {
    var run := OvertakingRun();
    assert |run| == 7 && Init(CONFIG, run[0]);
    FailingSteps();
    OvertakingSteps();
    hide StepOf, Init;
    forall i | 0 <= i < |run| - 1 ensures Step(CONFIG, run[i], run[i + 1]) {
      var t := if i < 3 then 0 else 2;
      assert StepOf(CONFIG, run[i], t, run[i + 1]);
      hide OvertakingRun;
    }
  }
}
