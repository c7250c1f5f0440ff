/** A client that reads on from where the last answer ended gets the whole file. */
module RepeatedReads {
  import opened FlatFile
  import opened BufferedHandle

  /** Answers to reads of positive size, all from one file, each starting where the one before ended. */
  ghost predicate Consecutive(answers: seq<Answer>, file: Bytes) {
    && (forall k :: 0 <= k < |answers| ==>
          answers[k].file == file && !answers[k].tainted && answers[k].value.Ok? && answers[k].size > 0)
    && (forall k :: 1 <= k < |answers| ==>
          answers[k].offset == answers[k - 1].offset + |answers[k - 1].value.value|)
  }

  /** The returned bytes, one answer after the other. */
  function Returned(answers: seq<Answer>): Bytes
    requires forall k :: 0 <= k < |answers| ==> answers[k].value.Ok?
  {
    if answers == [] then [] else answers[0].value.value + Returned(answers[1..])
  }

  lemma FirstPart(a: Answer, file: Bytes)
    requires ReadOf(a, file) && a.value.Ok? && a.size > 0 && a.offset <= |file|
    ensures var n := |a.value.value|;
            && a.offset + n <= |file| && (a.offset < |file| ==> n > 0)
            && file[a.offset..] == a.value.value + file[a.offset + n..]
  {
    var v := a.value.value;
    assert v == ReadAt(file, a.offset, a.size)[..|v|];
    assert v == file[a.offset..a.offset + |v|];
  }

  lemma RestConsecutive(answers: seq<Answer>, file: Bytes)
    requires Consecutive(answers, file) && |answers| > 1
    ensures Consecutive(answers[1..], file)
    ensures answers[1..][0].offset == answers[0].offset + |answers[0].value.value|
  {
    hide ReadOf;
    var rest := answers[1..];
    assert forall k :: 0 <= k < |rest| ==> rest[k] == answers[k + 1];
    assert forall k :: 1 <= k < |rest| ==> rest[k - 1] == answers[k];
  }

  lemma {:induction false} ConsecutiveRebuild(answers: seq<Answer>, file: Bytes)
    requires Consecutive(answers, file) && answers != [] && answers[0].offset <= |file|
    requires forall k :: 0 <= k < |answers| ==> ReadOf(answers[k], file)
    ensures Returned(answers) <= file[answers[0].offset..]
    ensures |answers| >= |file| - answers[0].offset ==> Returned(answers) == file[answers[0].offset..]
  {
    var a, rest := answers[0], answers[1..];
    FirstPart(a, file);
    hide ReadOf;
    if rest == [] {
      assert Returned(answers) == a.value.value + [];
    } else {
      RestConsecutive(answers, file);
      hide Consecutive;
      ConsecutiveRebuild(rest, file);
    }
  }

  /**
   * In every run, consecutive answers given while the file did not change, and no
   * failed batch was left uncleared, return a front part of the file from the first
   * offset on, and all of it once there are as many of them as bytes.
   */
  lemma ReadsRebuildFile(limits: Limits, run: seq<Handle>, i: nat, from: nat, n: nat, file: Bytes)
    requires Run(limits, run) && i < |run| && n > 0 && from + n <= |run[i].answers|
    requires Consecutive(run[i].answers[from..from + n], file) && run[i].answers[from].offset <= |file|
    ensures Returned(run[i].answers[from..from + n]) <= file[run[i].answers[from].offset..]
    ensures n >= |file| - run[i].answers[from].offset ==>
              Returned(run[i].answers[from..from + n]) == file[run[i].answers[from].offset..]
  {
    var answers := run[i].answers[from..from + n];
    hide Run, ReadOf;
    forall k | 0 <= k < |answers| ensures ReadOf(answers[k], file) {
      assert answers[k] in run[i].answers;
      ReadYourWrites(limits, run, i, answers[k]);
    }
    ConsecutiveRebuild(answers, file);
  }
}
