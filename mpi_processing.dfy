/** The fold-task scheduler of the MPI training script: task flattening,
    the per-task job name and completion log, the rank-to-GPU arithmetic,
    the coordinator (rank 0) loop and the worker loop.

    The message layer is not modelled as concurrency: the coordinator
    sees an arbitrary sequence of requesting ranks, and a worker sees the
    sequence of replies addressed to it. */
module MpiProcessing {
  import opened Common
  import opened Text

  type Subject = string

  /** The fields of one parsed training configuration that the scheduler reads. */
  datatype Config = Config(
    jobName: string,
    outputPath: string,
    testSubjects: seq<Subject>,
    validationSubjects: seq<Subject>,
    shuffleTheFolds: bool,
    epochs: int)

  /** The arguments of one call of the fold generator `generate_pairs`. */
  datatype PairsRequest = PairsRequest(
    testSubjects: seq<Subject>,
    validationSubjects: Option<seq<Subject>>,
    doShuffle: bool,
    paramEpoch: int,
    isOuter: bool)

  /** One `(n_epochs, test_subject, validation_subject)` triple produced by
      the fold generator. */
  datatype Fold = Fold(nEpochs: int, test: Subject, validation: Option<Subject>)

  /** One unit of work: `(config, n_epochs, test, validation)`. */
  datatype Task = Task(config: Config, nEpochs: int, test: Subject, validation: Option<Subject>)

  /** The fold generator is an external collaborator: any function from its
      arguments to a list of folds. */
  type FoldGenerator = PairsRequest -> seq<Fold>

  // ---------------------------------------------------------------------
  // Task flattening (split_tasks)
  // ---------------------------------------------------------------------

  /** The fold generator is asked for the configuration's test subjects and,
      only in the inner loop, its validation subjects. */
  function PairsRequestFor(c: Config, isOuter: bool): (r: PairsRequest)
    ensures r.testSubjects == c.testSubjects && r.isOuter == isOuter
    ensures r.doShuffle == c.shuffleTheFolds && r.paramEpoch == c.epochs
    ensures r.validationSubjects.None? <==> isOuter
    ensures !isOuter ==> r.validationSubjects.value == c.validationSubjects
  {
    PairsRequest(c.testSubjects, if isOuter then None else Some(c.validationSubjects),
                 c.shuffleTheFolds, c.epochs, isOuter)
  }

  /** The tasks of one configuration: its folds, each tagged with it. */
  function ConfigTasks(c: Config, folds: seq<Fold>): (r: seq<Task>)
    ensures |r| == |folds|
    ensures forall k :: 0 <= k < |r| ==>
      r[k] == Task(c, folds[k].nEpochs, folds[k].test, folds[k].validation)
  {
    seq(|folds|, k requires 0 <= k < |folds| => Task(c, folds[k].nEpochs, folds[k].test, folds[k].validation))
  }

  /** The task list of a configuration list: the configurations' tasks one
      after the other, in configuration order. */
  function AllTasks(configs: seq<Config>, isOuter: bool, gen: FoldGenerator): seq<Task> {
    if configs == [] then []
    else
      var last := configs[|configs| - 1];
      AllTasks(configs[..|configs| - 1], isOuter, gen) + ConfigTasks(last, gen(PairsRequestFor(last, isOuter)))
  }

  /** The total number of folds the generator yields for the configurations. */
  function PairCount(configs: seq<Config>, isOuter: bool, gen: FoldGenerator): nat {
    if configs == [] then 0
    else PairCount(configs[..|configs| - 1], isOuter, gen) + |gen(PairsRequestFor(configs[|configs| - 1], isOuter))|
  }

  /** `split_tasks`: extends the task list configuration by configuration. */
  method SplitTasks(configs: seq<Config>, isOuter: bool, gen: FoldGenerator) returns (tasks: seq<Task>)
    ensures tasks == AllTasks(configs, isOuter, gen)
  {
    tasks := [];
    var i := 0;
    while i < |configs|
      invariant 0 <= i <= |configs|
      invariant tasks == AllTasks(configs[..i], isOuter, gen)
    {
      var config := configs[i];
      var folds := gen(PairsRequestFor(config, isOuter));
      tasks := tasks + ConfigTasks(config, folds);
      i := i + 1;
      assert configs[..i][..i - 1] == configs[..i - 1];
    }
    assert configs[..i] == configs;
  }

  /** There is one task per generated fold. */
  lemma {:induction false} AllTasksLength(configs: seq<Config>, isOuter: bool, gen: FoldGenerator)
    ensures |AllTasks(configs, isOuter, gen)| == PairCount(configs, isOuter, gen)
  {
    if configs != [] {
      AllTasksLength(configs[..|configs| - 1], isOuter, gen);
    }
  }

  /** Flattening distributes over concatenation of configuration lists:
      all tasks of the earlier configurations come first. */
  lemma {:induction false} AllTasksAppend(a: seq<Config>, b: seq<Config>, isOuter: bool, gen: FoldGenerator)
    ensures AllTasks(a + b, isOuter, gen) == AllTasks(a, isOuter, gen) + AllTasks(b, isOuter, gen)
  {
    if b == [] {
      assert a + b == a;
    } else {
      var b' := b[..|b| - 1];
      var last := b[|b| - 1];
      AllTasksAppend(a, b', isOuter, gen);
      AllTasksSnoc(a + b', last, isOuter, gen);
      AllTasksSnoc(b', last, isOuter, gen);
      SplitLast(a, b);
      ConcatAssoc(AllTasks(a, isOuter, gen), AllTasks(b', isOuter, gen), ConfigTasks(last, gen(PairsRequestFor(last, isOuter))));
    }
  }

  /** One more configuration adds its tasks at the end. */
  lemma AllTasksSnoc(a: seq<Config>, c: Config, isOuter: bool, gen: FoldGenerator)
    ensures AllTasks(a + [c], isOuter, gen) == AllTasks(a, isOuter, gen) + ConfigTasks(c, gen(PairsRequestFor(c, isOuter)))
  {
    assert (a + [c])[..|a|] == a;
  }

  lemma SplitLast(a: seq<Config>, b: seq<Config>)
    requires b != []
    ensures a + b == (a + b[..|b| - 1]) + [b[|b| - 1]]
    ensures b == b[..|b| - 1] + [b[|b| - 1]]
  {
  }

  lemma ConcatAssoc(x: seq<Task>, y: seq<Task>, z: seq<Task>)
    ensures x + y + z == x + (y + z)
  {
  }

  /** Task `t` is one of the folds generated for configuration `c`. */
  predicate FromConfig(t: Task, c: Config, isOuter: bool, gen: FoldGenerator) {
    t.config == c && Fold(t.nEpochs, t.test, t.validation) in gen(PairsRequestFor(c, isOuter))
  }

  /** Every task comes from a configuration of the list and one of the folds
      the generator produced for it. */
  lemma {:induction false} AllTasksFrom(configs: seq<Config>, isOuter: bool, gen: FoldGenerator, k: nat)
    requires k < |AllTasks(configs, isOuter, gen)|
    ensures exists i :: 0 <= i < |configs| && FromConfig(AllTasks(configs, isOuter, gen)[k], configs[i], isOuter, gen)
  {
    var init := configs[..|configs| - 1];
    var prev := AllTasks(init, isOuter, gen);
    if k < |prev| {
      AllTasksFrom(init, isOuter, gen, k);
      var i :| 0 <= i < |init| && FromConfig(prev[k], init[i], isOuter, gen);
      assert init[i] == configs[i];
    } else {
      var last := configs[|configs| - 1];
      var folds := gen(PairsRequestFor(last, isOuter));
      assert folds[k - |prev|] == Fold(folds[k - |prev|].nEpochs, folds[k - |prev|].test, folds[k - |prev|].validation);
      assert FromConfig(AllTasks(configs, isOuter, gen)[k], configs[|configs| - 1], isOuter, gen);
    }
  }

  // ---------------------------------------------------------------------
  // Job name and completion log (run_training)
  // ---------------------------------------------------------------------

  /** How an f-string renders a validation subject that may be None. */
  function ValidationText(v: Option<Subject>): string {
    match v
    case Some(s) => s
    case None => "None"
  }

  /** The job name that keys the completion log: `{job}_test_{t}` in the
      outer loop, `{job}_test_{t}_sub_{v}` in the inner loop. */
  function JobName(job: string, test: Subject, validation: Option<Subject>, isOuter: bool): string {
    if isOuter then job + "_test_" + test
    else job + "_test_" + test + "_sub_" + ValidationText(validation)
  }

  /** A completion-log entry is found by the configuration's output path
      and the job name together. */
  datatype LogKey = LogKey(outputPath: string, jobName: string)

  function TaskKey(t: Task, isOuter: bool): LogKey {
    LogKey(t.config.outputPath, JobName(t.config.jobName, t.test, t.validation, isOuter))
  }

  /** Outer-loop job names of one job tell test subjects apart. */
  lemma JobNameOuterInjective(job: string, t1: Subject, t2: Subject, v1: Option<Subject>, v2: Option<Subject>)
    requires JobName(job, t1, v1, true) == JobName(job, t2, v2, true)
    ensures t1 == t2
  {
    var p := job + "_test_";
    assert t1 == JobName(job, t1, v1, true)[|p|..];
    assert t2 == JobName(job, t2, v2, true)[|p|..];
  }

  /** Inner-loop job names of one job tell (test, validation) pairs apart
      when subject names hold no underscore. */
  lemma JobNameInnerInjective(job: string, t1: Subject, t2: Subject, v1: Subject, v2: Subject)
    requires '_' !in t1 && '_' !in t2
    requires JobName(job, t1, Some(v1), false) == JobName(job, t2, Some(v2), false)
    ensures t1 == t2 && v1 == v2
  {
    var p := job + "_test_";
    var a := t1 + "_sub_" + v1;
    var b := t2 + "_sub_" + v2;
    assert a == JobName(job, t1, Some(v1), false)[|p|..];
    assert b == JobName(job, t2, Some(v2), false)[|p|..];
    assert a[|t1|] == '_' && b[|t2|] == '_';
    assert t1 == a[..|t1|] && t2 == b[..|t2|];
    assert v1 == a[|t1| + 5..] && v2 == b[|t2| + 5..];
  }

  /** Without that restriction two different inner-loop folds can share a
      completion-log entry. */
  lemma JobNameInnerCollision()
    ensures JobName("job", "a_sub_b", Some("c"), false) == JobName("job", "a", Some("b_sub_c"), false)
  {
  }

  /** One call of the training executor (`subject_loop`). */
  datatype TrainingCall = TrainingCall(rank: nat, task: Task, isOuter: bool)

  /** The training executor as far as the scheduler can tell: `true` when
      the call returns, `false` when it raises. */
  type Executor = TrainingCall -> bool

  /** What `run_training` can observe and change: the completion log as a
      map from (output path, job name) to `is_finished`, the trainings started so far, and
      the task whose training raised, which ends the worker. A key absent
      from the map has no log file. */
  datatype Ledger = Ledger(log: map<LogKey, bool>, trained: seq<TrainingCall>, failed: Option<Task>)

  predicate IsFinished(log: map<LogKey, bool>, key: LogKey) {
    key in log && log[key]
  }

  /** `run_training`: skip a finished fold; otherwise train it, and record
      `is_finished = True` only when the training returns. */
  function RunOne(l: Ledger, rank: nat, t: Task, isOuter: bool, ok: Executor): Ledger {
    var key := TaskKey(t, isOuter);
    var call := TrainingCall(rank, t, isOuter);
    if IsFinished(l.log, key) then l
    else if ok(call) then Ledger(l.log[key := true], l.trained + [call], l.failed)
    else Ledger(l.log, l.trained + [call], Some(t))
  }

  /** A worker's sequence of `run_training` calls; the first one that
      raises ends the worker. */
  function RunAll(l: Ledger, rank: nat, tasks: seq<Task>, isOuter: bool, ok: Executor): Ledger
    decreases |tasks|
  {
    if tasks == [] || l.failed.Some? then l
    else RunAll(RunOne(l, rank, tasks[0], isOuter, ok), rank, tasks[1..], isOuter, ok)
  }

  /** How many of those calls return; after each one the worker sends
      rank 0 its next request. */
  function Returned(l: Ledger, rank: nat, tasks: seq<Task>, isOuter: bool, ok: Executor): (n: nat)
    ensures n <= |tasks|
    decreases |tasks|
  {
    if tasks == [] || l.failed.Some? then 0
    else
      var l1 := RunOne(l, rank, tasks[0], isOuter, ok);
      if l1.failed.Some? then 0 else 1 + Returned(l1, rank, tasks[1..], isOuter, ok)
  }

  /** One more task in front of the list is one more call, made only while
      no earlier call has raised. */
  lemma RunAllStep(l: Ledger, rank: nat, t: Task, rest: seq<Task>, isOuter: bool, ok: Executor)
    requires l.failed.None?
    ensures var l1 := RunOne(l, rank, t, isOuter, ok);
      && RunAll(l, rank, [t] + rest, isOuter, ok) == RunAll(l1, rank, rest, isOuter, ok)
      && Returned(l, rank, [t] + rest, isOuter, ok) == (if l1.failed.Some? then 0 else 1 + Returned(l1, rank, rest, isOuter, ok))
  {
    assert ([t] + rest)[0] == t && ([t] + rest)[1..] == rest;
  }

  /** A finished fold is neither trained nor written; any other fold is
      trained once, and marked finished if and only if its training
      returns. */
  lemma RunOneEffect(l: Ledger, rank: nat, t: Task, isOuter: bool, ok: Executor)
    ensures var key := TaskKey(t, isOuter);
      var call := TrainingCall(rank, t, isOuter);
      var l' := RunOne(l, rank, t, isOuter, ok);
      (IsFinished(l.log, key) ==> l' == l) &&
      (!IsFinished(l.log, key) ==> l'.trained == l.trained + [call]) &&
      (!IsFinished(l.log, key) && ok(call) ==> l'.log == l.log[key := true] && l'.failed == l.failed) &&
      (!IsFinished(l.log, key) && !ok(call) ==> l'.log == l.log && !IsFinished(l'.log, key) && l'.failed == Some(t))
  {
  }

  /** No `is_finished = True` entry is ever reset. */
  lemma {:induction false} RunAllMonotone(l: Ledger, rank: nat, tasks: seq<Task>, isOuter: bool, ok: Executor, key: LogKey)
    requires IsFinished(l.log, key)
    ensures IsFinished(RunAll(l, rank, tasks, isOuter, ok).log, key)
    decreases |tasks|
  {
    if tasks != [] && l.failed.None? {
      RunAllMonotone(RunOne(l, rank, tasks[0], isOuter, ok), rank, tasks[1..], isOuter, ok, key);
    }
  }

  /** Nothing is removed from the training record. */
  lemma {:induction false} RunAllExtends(l: Ledger, rank: nat, tasks: seq<Task>, isOuter: bool, ok: Executor)
    ensures l.trained <= RunAll(l, rank, tasks, isOuter, ok).trained
    decreases |tasks|
  {
    if tasks != [] && l.failed.None? {
      RunAllExtends(RunOne(l, rank, tasks[0], isOuter, ok), rank, tasks[1..], isOuter, ok);
    }
  }

  /** Every fold whose `run_training` returned is marked finished. */
  lemma {:induction false} RunAllMarks(l: Ledger, rank: nat, tasks: seq<Task>, isOuter: bool, ok: Executor, k: nat)
    requires l.failed.None? && k < Returned(l, rank, tasks, isOuter, ok)
    ensures IsFinished(RunAll(l, rank, tasks, isOuter, ok).log, TaskKey(tasks[k], isOuter))
    decreases |tasks|
  {
    var l1 := RunOne(l, rank, tasks[0], isOuter, ok);
    if k == 0 {
      RunAllMonotone(l1, rank, tasks[1..], isOuter, ok, TaskKey(tasks[0], isOuter));
    } else {
      RunAllMarks(l1, rank, tasks[1..], isOuter, ok, k - 1);
    }
  }

  /** The calls return one after the other until the first that raises.
      Without such a call all of them return; otherwise the failed fold is
      the one after those that returned, it stays unfinished in the log,
      its training is the last one started, and no later task is run. */
  lemma {:induction false} RunAllFailure(l: Ledger, rank: nat, tasks: seq<Task>, isOuter: bool, ok: Executor)
    requires l.failed.None?
    ensures var r := RunAll(l, rank, tasks, isOuter, ok);
      var n := Returned(l, rank, tasks, isOuter, ok);
      && n <= |tasks|
      && (r.failed.None? <==> n == |tasks|)
      && (r.failed.Some? ==>
            && n < |tasks| && r.failed == Some(tasks[n])
            && !IsFinished(r.log, TaskKey(tasks[n], isOuter))
            && r.trained != [] && r.trained[|r.trained| - 1] == TrainingCall(rank, tasks[n], isOuter)
            && r == RunAll(l, rank, tasks[..n + 1], isOuter, ok))
    decreases |tasks|
  {
    if tasks != [] {
      var l1 := RunOne(l, rank, tasks[0], isOuter, ok);
      assert tasks[..1] == [tasks[0]] && tasks[..1][1..] == [];
      if l1.failed.None? {
        RunAllFailure(l1, rank, tasks[1..], isOuter, ok);
        var n := Returned(l, rank, tasks, isOuter, ok);
        if n < |tasks| {
          assert tasks[..n + 1][0] == tasks[0] && tasks[..n + 1][1..] == tasks[1..][..n];
        }
      }
    }
  }

  /** Configurations that share a job name but write to different output
      paths keep separate logs: the same fold of each is trained once. */
  lemma SeparateOutputPaths(l: Ledger, rank: nat, t1: Task, t2: Task, isOuter: bool, ok: Executor)
    requires l.failed.None? && t1.config.outputPath != t2.config.outputPath
    requires !IsFinished(l.log, TaskKey(t1, isOuter)) && !IsFinished(l.log, TaskKey(t2, isOuter))
    requires ok(TrainingCall(rank, t1, isOuter)) && ok(TrainingCall(rank, t2, isOuter))
    ensures var r := RunAll(l, rank, [t1, t2], isOuter, ok);
      && r.trained == l.trained + [TrainingCall(rank, t1, isOuter), TrainingCall(rank, t2, isOuter)]
      && IsFinished(r.log, TaskKey(t1, isOuter)) && IsFinished(r.log, TaskKey(t2, isOuter))
  {
    var l1 := RunOne(l, rank, t1, isOuter, ok);
    assert TaskKey(t1, isOuter) != TaskKey(t2, isOuter);
    assert !IsFinished(l1.log, TaskKey(t2, isOuter));
    var l2 := RunOne(l1, rank, t2, isOuter, ok);
    assert [t1, t2][0] == t1 && [t1, t2][1..] == [t2] && [t2][1..] == [];
    assert RunAll(l1, rank, [t2], isOuter, ok) == RunAll(l2, rank, [], isOuter, ok) == l2;
  }

  /** A fold that was finished before the calls is never trained, and no
      log entry (output path and job name) is trained twice, even when the
      same fold is handed out more than once. */
  lemma {:induction false} RunAllTrainsOnce(l: Ledger, rank: nat, tasks: seq<Task>, isOuter: bool, ok: Executor)
    ensures var l' := RunAll(l, rank, tasks, isOuter, ok);
      && |l.trained| <= |l'.trained|
      && (forall i :: |l.trained| <= i < |l'.trained| ==> !IsFinished(l.log, TaskKey(l'.trained[i].task, isOuter)))
      && (forall i, j :: |l.trained| <= i < j < |l'.trained| ==>
            TaskKey(l'.trained[i].task, isOuter) != TaskKey(l'.trained[j].task, isOuter))
    decreases |tasks|
  {
    if tasks != [] && l.failed.None? {
      var key := TaskKey(tasks[0], isOuter);
      var l1 := RunOne(l, rank, tasks[0], isOuter, ok);
      var l' := RunAll(l1, rank, tasks[1..], isOuter, ok);
      RunAllTrainsOnce(l1, rank, tasks[1..], isOuter, ok);
      if !IsFinished(l.log, key) && l1.failed.None? {
        assert l'.trained[|l.trained|].task == tasks[0] by {
          RunAllExtends(l1, rank, tasks[1..], isOuter, ok);
        }
        assert IsFinished(l1.log, key);
      }
    }
  }

  // ---------------------------------------------------------------------
  // Rank-to-GPU arithmetic
  // ---------------------------------------------------------------------

  /** `index_gpu` of a worker rank. Python's `%` with a positive divisor
      never yields a negative remainder, like Dafny's. */
  function GpuIndex(rank: int, nGpus: int, dummy: bool): (idx: int)
    requires nGpus > 0
    ensures 0 <= idx < (if dummy then nGpus + 1 else nGpus)
  {
    if dummy then (rank - 1) % (nGpus + 1) else (rank - 1) % nGpus
  }

  /** Whether a worker rank binds its GPU and takes part in training. */
  predicate Trains(rank: int, nGpus: int, dummy: bool)
    requires nGpus > 0
  {
    !dummy || GpuIndex(rank, nGpus, dummy) != nGpus
  }

  lemma {:induction false} MulAtLeast(x: int, m: int)
    requires x >= 1 && m > 0
    ensures x * m >= m
    decreases x
  {
    if x > 1 {
      MulAtLeast(x - 1, m);
      assert x * m == (x - 1) * m + m;
    }
  }

  /** Quotient and remainder are the only decomposition with the remainder
      in range. */
  lemma ModUnique(a: int, m: int, q: int, r: int)
    requires m > 0 && 0 <= r < m && a == q * m + r
    ensures a % m == r && a / m == q
  {
    var q', r' := a / m, a % m;
    assert a == q' * m + r';
    if q' > q {
      MulAtLeast(q' - q, m);
    } else if q' < q {
      MulAtLeast(q - q', m);
    }
  }

  /** In dummy mode a rank trains exactly when it is not a multiple of
      `n_gpus + 1`. */
  lemma DummyTrainsIff(rank: int, nGpus: int)
    requires nGpus > 0
    ensures Trains(rank, nGpus, true) <==> rank % (nGpus + 1) != 0
  {
    var m := nGpus + 1;
    var q, r := (rank - 1) / m, (rank - 1) % m;
    assert rank - 1 == q * m + r;
    if r == nGpus {
      ModUnique(rank, m, q + 1, 0);
    } else {
      ModUnique(rank, m, q, r + 1);
    }
  }

  /** Without dummy mode, `n_gpus` consecutive ranks of one cycle bind
      pairwise different GPUs. */
  lemma CycleBindsDistinct(nGpus: int, c: nat, r1: int, r2: int)
    requires nGpus > 0
    requires c * nGpus + 1 <= r1 <= (c + 1) * nGpus && c * nGpus + 1 <= r2 <= (c + 1) * nGpus
    requires r1 != r2
    ensures GpuIndex(r1, nGpus, false) != GpuIndex(r2, nGpus, false)
  {
    ModUnique(r1 - 1, nGpus, c, r1 - 1 - c * nGpus);
    ModUnique(r2 - 1, nGpus, c, r2 - 1 - c * nGpus);
  }

  /** Two GPUs and dummy mode: ranks 3, 6 and 9 do not train, the others
      bind GPUs 0 and 1 in turn. */
  lemma TwoGpuDummyLayout()
    ensures forall r :: r in {3, 6, 9} ==> !Trains(r, 2, true)
    ensures GpuIndex(1, 2, true) == 0 && GpuIndex(2, 2, true) == 1
    ensures GpuIndex(4, 2, true) == 0 && GpuIndex(5, 2, true) == 1
    ensures GpuIndex(7, 2, true) == 0 && GpuIndex(8, 2, true) == 1
  {
  }

  // ---------------------------------------------------------------------
  // Ranks entered in `exited` before the loop, in dummy mode
  // ---------------------------------------------------------------------

  /** A Python number, as far as line 240 needs: `/` always yields a float. */
  datatype PyNum = PyInt(i: int) | PyFloat(x: real)

  datatype PyError = TypeError | ZeroDivisionError

  /** `a / b` on two ints: true division, a float. */
  function TrueDiv(a: int, b: int): PyNum
    requires b != 0
  {
    PyFloat(a as real / b as real)
  }

  /** `x + k` and `x - k` for an int constant `k`. */
  function AddInt(x: PyNum, k: int): PyNum {
    match x
    case PyInt(i) => PyInt(i + k)
    case PyFloat(f) => PyFloat(f + k as real)
  }

  /** `[m * i for i in range(1, hi)]`: `range` refuses a float bound. */
  function MultiplesBelow(m: int, hi: PyNum): Result<seq<int>, PyError> {
    match hi
    case PyFloat(_) => Err(TypeError)
    case PyInt(h) => Ok(seq(if h > 1 then h - 1 else 0, k => (k + 1) * m))
  }

  /** Lines 240-242 as written: `n_proc/(n_gpus+1) - 1` is a float. */
  function PreExitedAsWritten(nProc: int, nGpus: int): Result<seq<int>, PyError> {
    if nGpus + 1 == 0 then Err(ZeroDivisionError)
    else
      var notUsed := AddInt(TrueDiv(nProc, nGpus + 1), -1);
      MultiplesBelow(nGpus + 1, AddInt(notUsed, 1))
  }

  /** As written, dummy mode always stops the coordinator with a TypeError
      before it serves a single request. */
  lemma PreExitedAsWrittenFails(nProc: int, nGpus: int)
    requires nGpus + 1 != 0
    ensures PreExitedAsWritten(nProc, nGpus) == Err(TypeError)
  {
  }

  /** Lines 240-242 with the division read as floor division, the count
      kept as written: `n_proc // (n_gpus+1) - 1` multiples. */
  function PreExited(nProc: nat, nGpus: int): (r: seq<int>)
    requires nGpus > 0
    ensures |r| == if nProc / (nGpus + 1) > 1 then nProc / (nGpus + 1) - 1 else 0
    ensures forall k :: 0 <= k < |r| ==> r[k] == (k + 1) * (nGpus + 1)
  {
    var notUsed := nProc / (nGpus + 1) - 1;
    MultiplesBelow(nGpus + 1, PyInt(notUsed + 1)).value
  }

  /** The floor-division pre-exited ranks are multiples of `n_gpus + 1` from
      `n_gpus + 1` up to `n_proc - (n_gpus + 1)`... */
  lemma PreExitedSound(nProc: nat, nGpus: int, k: nat)
    requires nGpus > 0 && k < |PreExited(nProc, nGpus)|
    ensures var r := PreExited(nProc, nGpus)[k];
      r % (nGpus + 1) == 0 && nGpus + 1 <= r <= nProc - (nGpus + 1)
  {
    var m := nGpus + 1;
    var big := nProc / m;
    var r := (k + 1) * m;
    assert nProc >= big * m;
    ModUnique(r, m, k + 1, 0);
    MulAtLeast(k + 1, m);
    MulAtLeast(big - (k + 1), m);
    assert (big - (k + 1)) * m == big * m - (k + 1) * m;
  }

  /** ... and every such multiple is one of them. */
  lemma PreExitedComplete(nProc: nat, nGpus: int, r: int)
    requires nGpus > 0 && nProc % (nGpus + 1) == 0
    requires r % (nGpus + 1) == 0 && nGpus + 1 <= r <= nProc - (nGpus + 1)
    ensures r in PreExited(nProc, nGpus)
  {
    var m := nGpus + 1;
    QuotientBetween(r, nProc, m);
    var s := PreExited(nProc, nGpus);
    assert s[r / m - 1] == r;
  }

  /** A multiple of `m` between `m` and `n - m`, for `n` a multiple of `m`,
      has a quotient between 1 and `n / m - 1`. */
  lemma QuotientBetween(r: int, n: int, m: int)
    requires m > 0 && r % m == 0 && n % m == 0 && m <= r <= n - m
    ensures r == (r / m) * m && 1 <= r / m < n / m
  {
    var q, b := r / m, n / m;
    assert r == q * m && n == b * m;
    if q < 1 {
      if q < 0 {
        MulAtLeast(-q, m);
      }
      assert false;
    }
    if q >= b {
      MulAtLeast(q - b + 1, m);
      assert false;
    }
  }

  /** A positive multiple of `m` below a multiple `n` of `m` is at most `n - m`. */
  lemma MultipleBelow(r: int, n: int, m: int)
    requires m > 0 && r % m == 0 && n % m == 0 && 1 <= r < n
    ensures m <= r <= n - m
  {
    var q, b := r / m, n / m;
    assert r == q * m && n == b * m;
    if q < 1 {
      if q < 0 {
        MulAtLeast(-q, m);
      }
      assert false;
    }
    MulAtLeast(q, m);
    if q >= b {
      if q > b {
        MulAtLeast(q - b, m);
      }
      assert false;
    }
    MulAtLeast(b - q, m);
    assert (b - q) * m == b * m - q * m;
  }

  /** When `n_proc` is a multiple of `n_gpus + 1`, the case the layout
      comment draws, the floor-division pre-exited ranks are exactly the
      worker ranks that never train. */
  lemma PreExitedAreIdleRanks(nProc: nat, nGpus: int, r: int)
    requires nGpus > 0 && nProc > 0 && nProc % (nGpus + 1) == 0
    ensures r in PreExited(nProc, nGpus) <==> 1 <= r < nProc && !Trains(r, nGpus, true)
  {
    DummyTrainsIff(r, nGpus);
    var s := PreExited(nProc, nGpus);
    if r in s {
      var k :| 0 <= k < |s| && s[k] == r;
      PreExitedSound(nProc, nGpus, k);
    }
    if 1 <= r < nProc && r % (nGpus + 1) == 0 {
      MultipleBelow(r, nProc, nGpus + 1);
      PreExitedComplete(nProc, nGpus, r);
    }
  }

  /** The idle ranks, as the pre-exit step evidently means them: every
      multiple of `n_gpus + 1` among the worker ranks `1 .. n_proc-1`, that
      is `(n_proc-1) // (n_gpus+1)` of them. */
  function IdleRanks(nProc: nat, nGpus: int): (r: seq<int>)
    requires nGpus > 0
    ensures |r| == if nProc >= 1 then (nProc - 1) / (nGpus + 1) else 0
    ensures forall k :: 0 <= k < |r| ==> r[k] == (k + 1) * (nGpus + 1)
  {
    var count := if nProc >= 1 then (nProc - 1) / (nGpus + 1) else 0;
    MultiplesBelow(nGpus + 1, PyInt(count + 1)).value
  }

  lemma IdleRanksSound(nProc: nat, nGpus: int, k: nat)
    requires nGpus > 0 && k < |IdleRanks(nProc, nGpus)|
    ensures var r := IdleRanks(nProc, nGpus)[k];
      r % (nGpus + 1) == 0 && 1 <= r < nProc
  {
    var m := nGpus + 1;
    var c := (nProc - 1) / m;
    var r := (k + 1) * m;
    assert nProc - 1 == c * m + (nProc - 1) % m;
    ModUnique(r, m, k + 1, 0);
    MulAtLeast(k + 1, m);
    if c > k + 1 {
      MulAtLeast(c - (k + 1), m);
      assert c * m == r + (c - (k + 1)) * m;
    }
  }

  lemma IdleRanksComplete(nProc: nat, nGpus: int, r: int)
    requires nGpus > 0 && r % (nGpus + 1) == 0 && 1 <= r < nProc
    ensures r in IdleRanks(nProc, nGpus)
  {
    var m := nGpus + 1;
    var c := (nProc - 1) / m;
    var q := r / m;
    assert r == q * m;
    assert nProc - 1 == c * m + (nProc - 1) % m;
    if q < 1 {
      if q < 0 {
        MulAtLeast(-q, m);
      }
      assert false;
    }
    if q > c {
      MulAtLeast(q - c, m);
      assert false;
    }
    assert IdleRanks(nProc, nGpus)[q - 1] == r;
  }

  /** For every `n_proc`, the corrected pre-exited ranks are exactly the
      worker ranks that never train (line 285). */
  lemma IdleRanksExact(nProc: nat, nGpus: int, r: int)
    requires nGpus > 0
    ensures r in IdleRanks(nProc, nGpus) <==> 1 <= r < nProc && !Trains(r, nGpus, true)
  {
    DummyTrainsIff(r, nGpus);
    var s := IdleRanks(nProc, nGpus);
    if r in s {
      var k :| 0 <= k < |s| && s[k] == r;
      IdleRanksSound(nProc, nGpus, k);
    }
    if 1 <= r < nProc && r % (nGpus + 1) == 0 {
      IdleRanksComplete(nProc, nGpus, r);
    }
  }

  // ---------------------------------------------------------------------
  // Coordinator (rank 0)
  // ---------------------------------------------------------------------

  /** A reply of rank 0: a task, or `False` ("no more work"). */
  datatype Reply = Send(task: Task) | NoMoreWork

  /** The coordinator's state: the tasks not yet handed out and the ranks
      told to stop. */
  datatype CoordState = CoordState(tasks: seq<Task>, exited: seq<int>)

  datatype StepResult = StepResult(next: CoordState, reply: Reply, stop: bool)

  /** Every worker rank `1 .. n_proc-1` has been told to stop. */
  predicate AllExited(exited: seq<int>, nProc: int) {
    forall r :: 1 <= r < nProc ==> r in exited
  }

  /** One iteration of the `while True` loop, for a request from `subrank`. */
  function Step(s: CoordState, nProc: int, subrank: int): StepResult {
    if s.tasks != [] then
      StepResult(CoordState(s.tasks[..|s.tasks| - 1], s.exited), Send(s.tasks[|s.tasks| - 1]), false)
    else
      var exited := s.exited + [subrank];
      StepResult(CoordState([], exited), NoMoreWork, AllExited(exited, nProc))
  }

  /** The outcome of serving a sequence of requests: the final state, one
      reply per request served, and whether the loop broke. When it did
      not, the coordinator is still blocked in `recv`. */
  datatype ServeResult = ServeResult(final: CoordState, replies: seq<Reply>, terminated: bool)

  function Serve(s: CoordState, nProc: int, requests: seq<int>): (r: ServeResult)
    ensures |r.replies| <= |requests|
    ensures r.terminated || |r.replies| == |requests|
    decreases |requests|
  {
    if requests == [] then ServeResult(s, [], false)
    else
      var st := Step(s, nProc, requests[0]);
      if st.stop then ServeResult(st.next, [st.reply], true)
      else
        var rest := Serve(st.next, nProc, requests[1..]);
        ServeResult(rest.final, [st.reply] + rest.replies, rest.terminated)
  }

  function Min(a: int, b: int): int {
    if a <= b then a else b
  }

  /** The stop list once the first `j` requests are answered: the ranks of
      the requests that came after the tasks ran out were added. */
  function ExitedAfter(s: CoordState, requests: seq<int>, j: nat): seq<int>
    requires j <= |requests|
  {
    s.exited + requests[Min(|s.tasks|, j)..j]
  }

  /** Each request served gets one reply: the first `|tasks|` replies hand
      out the tasks from the tail of the list, so no task goes out twice,
      and every later reply is `False`; the list shrinks by one per task
      sent. */
  lemma {:induction false} ServeReplies(s: CoordState, nProc: int, requests: seq<int>)
    ensures var r := Serve(s, nProc, requests);
      var n := |s.tasks|;
      && (forall j :: 0 <= j < |r.replies| ==>
            r.replies[j] == if j < n then Send(s.tasks[n - 1 - j]) else NoMoreWork)
      && r.final.tasks == s.tasks[..n - Min(n, |r.replies|)]
    decreases |requests|
  {
    if requests != [] {
      var st := Step(s, nProc, requests[0]);
      var n := |s.tasks|;
      var r := Serve(s, nProc, requests);
      if !st.stop {
        ServeReplies(st.next, nProc, requests[1..]);
        var rest := Serve(st.next, nProc, requests[1..]);
        assert r.replies == [st.reply] + rest.replies;
        forall j | 0 < j < |r.replies|
          ensures r.replies[j] == if j < n then Send(s.tasks[n - 1 - j]) else NoMoreWork
        {
          assert r.replies[j] == rest.replies[j - 1];
        }
        if n > 0 {
          assert st.next.tasks[..n - 1 - Min(n - 1, |rest.replies|)] == s.tasks[..n - Min(n, |r.replies|)];
        }
      }
    }
  }

  /** Every `False` adds the requesting rank to `exited`, and nothing else
      does. */
  lemma {:induction false} ServeExited(s: CoordState, nProc: int, requests: seq<int>)
    ensures var r := Serve(s, nProc, requests);
      r.final.exited == ExitedAfter(s, requests, |r.replies|)
    decreases |requests|
  {
    if requests != [] {
      var st := Step(s, nProc, requests[0]);
      var n := |s.tasks|;
      if !st.stop {
        ServeExited(st.next, nProc, requests[1..]);
        var rest := Serve(st.next, nProc, requests[1..]);
        ExitedAfterStep(s, nProc, requests, |rest.replies| + 1);
      } else {
        assert requests[0..1] == [requests[0]];
      }
    }
  }

  /** Answering the first request and then `j - 1` more leaves the same
      stop list as answering `j` requests. */
  lemma ExitedAfterStep(s: CoordState, nProc: int, requests: seq<int>, j: nat)
    requires 0 < j <= |requests|
    ensures ExitedAfter(s, requests, j) == ExitedAfter(Step(s, nProc, requests[0]).next, requests[1..], j - 1)
  {
    var n := |s.tasks|;
    if n > 0 {
      assert requests[1..][Min(n - 1, j - 1)..j - 1] == requests[Min(n, j)..j];
    } else {
      assert requests[0..j] == [requests[0]] + requests[1..][0..j - 1];
    }
  }

  /** The loop breaks only after a `False` that leaves every worker rank in
      `exited`, and at the first such `False`. */
  lemma {:induction false} ServeBreaks(s: CoordState, nProc: int, requests: seq<int>)
    ensures var r := Serve(s, nProc, requests);
      var n := |s.tasks|;
      && (r.terminated ==> n < |r.replies| && AllExited(ExitedAfter(s, requests, |r.replies|), nProc))
      && (forall j :: n < j < |r.replies| ==> !AllExited(ExitedAfter(s, requests, j), nProc))
    decreases |requests|
  {
    if requests != [] {
      var st := Step(s, nProc, requests[0]);
      var n := |s.tasks|;
      var r := Serve(s, nProc, requests);
      if !st.stop {
        ServeBreaks(st.next, nProc, requests[1..]);
        var rest := Serve(st.next, nProc, requests[1..]);
        assert |r.replies| == |rest.replies| + 1;
        forall j | 0 < j <= |r.replies|
          ensures ExitedAfter(s, requests, j) == ExitedAfter(st.next, requests[1..], j - 1)
        {
          ExitedAfterStep(s, nProc, requests, j);
        }
        if n == 0 {
          assert ExitedAfter(s, requests, 1) == st.next.exited;
        }
      } else {
        assert requests[0..1] == [requests[0]];
      }
    }
  }

  /** Termination, one direction: if the requests cover the tasks and, after
      them, every worker rank not already in `exited` asks once more, the
      loop breaks, after at most that many exchanges. */
  lemma {:induction false} ServeTerminates(s: CoordState, nProc: int, requests: seq<int>)
    requires |s.tasks| < |requests|
    requires forall r :: 1 <= r < nProc && r !in s.exited ==> r in requests[|s.tasks|..]
    ensures Serve(s, nProc, requests).terminated
    decreases |requests|
  {
    var st := Step(s, nProc, requests[0]);
    if !st.stop {
      if s.tasks != [] {
        assert requests[1..][|st.next.tasks|..] == requests[|s.tasks|..];
      } else {
        forall r | 1 <= r < nProc && r !in st.next.exited ensures r in requests[1..] {
          assert r in requests[0..];
          assert r != requests[0];
        }
        assert !AllExited(st.next.exited, nProc);
        assert requests[1..] != [];
      }
      ServeTerminates(st.next, nProc, requests[1..]);
    }
  }

  /** Termination, other direction: when the loop breaks, every worker rank
      not in `exited` beforehand sent a request after the task list had run
      out. */
  lemma ServeTerminatedCovers(s: CoordState, nProc: int, requests: seq<int>, r: int)
    requires Serve(s, nProc, requests).terminated
    requires 1 <= r < nProc && r !in s.exited
    ensures var k := |Serve(s, nProc, requests).replies|;
      |s.tasks| < k <= |requests| && r in requests[|s.tasks|..k]
  {
    ServeBreaks(s, nProc, requests);
    var k := |Serve(s, nProc, requests).replies|;
    assert r in ExitedAfter(s, requests, k);
  }

  /** A worker rank that never asks again once the tasks have run out
      (because its training raised, say) keeps the loop from breaking:
      rank 0 stays blocked in `recv`. */
  lemma ServeWaitsFor(s: CoordState, nProc: int, requests: seq<int>, r: int)
    requires 1 <= r < nProc && r !in s.exited
    requires forall j :: |s.tasks| <= j < |requests| ==> requests[j] != r
    ensures !Serve(s, nProc, requests).terminated
  {
    if Serve(s, nProc, requests).terminated {
      ServeTerminatedCovers(s, nProc, requests, r);
      assert false;
    }
  }

  /** With the count of line 240 kept and only the division floored, a
      non-multiple `n_proc` still hangs: for ten processes and two GPUs the
      list is `[3, 6]`, rank 9 is idle too and never sends a request, so
      the loop never breaks. */
  lemma PreExitedHangs(tasks: seq<Task>, requests: seq<int>)
    requires forall j :: 0 <= j < |requests| ==> requests[j] != 9
    ensures PreExited(10, 2) == [3, 6] && !Trains(9, 2, true)
    ensures !Serve(CoordState(tasks, PreExited(10, 2)), 10, requests).terminated
  {
    assert PreExited(10, 2) == [3, 6];
    ServeWaitsFor(CoordState(tasks, PreExited(10, 2)), 10, requests, 9);
  }

  /** With the idle ranks pre-exited, the loop breaks once the tasks are
      handed out and every training rank has asked once more. */
  lemma IdleRanksServeTerminates(tasks: seq<Task>, nProc: nat, nGpus: int, requests: seq<int>)
    requires nGpus > 0 && |tasks| < |requests|
    requires forall r :: 1 <= r < nProc && Trains(r, nGpus, true) ==> r in requests[|tasks|..]
    ensures Serve(CoordState(tasks, IdleRanks(nProc, nGpus)), nProc, requests).terminated
  {
    var s := CoordState(tasks, IdleRanks(nProc, nGpus));
    forall r | 1 <= r < nProc && r !in s.exited
      ensures r in requests[|s.tasks|..]
    {
      IdleRanksExact(nProc, nGpus, r);
    }
    ServeTerminates(s, nProc, requests);
  }

  /** Rank 0. It owns the remaining tasks and the ranks told to stop. */
  class Coordinator {
    var tasks: seq<Task>
    var exited: seq<int>
    const nProc: int

    function State(): CoordState
      reads this
    {
      CoordState(tasks, exited)
    }

    constructor (tasks: seq<Task>, exited: seq<int>, nProc: int)
      ensures State() == CoordState(tasks, exited) && this.nProc == nProc
    {
      this.tasks := tasks;
      this.exited := exited;
      this.nProc := nProc;
    }

    /** Answers one request: the last task is popped and sent, or `False`
      is sent and the rank recorded; `stop` says the loop must break. */
    method Answer(subrank: int) returns (reply: Reply, stop: bool)
      modifies this
      ensures StepResult(State(), reply, stop) == Step(old(State()), nProc, subrank)
    {
      if tasks != [] {
        reply := Send(tasks[|tasks| - 1]);
        tasks := tasks[..|tasks| - 1];
        stop := false;
      } else {
        reply := NoMoreWork;
        exited := exited + [subrank];
        stop := forall r :: 1 <= r < nProc ==> r in exited;
      }
    }

    /** The `while True` loop over the requests that arrive, in arrival
      order. It returns when the loop breaks or the requests run out. */
    method Listen(requests: seq<int>) returns (replies: seq<Reply>, terminated: bool)
      modifies this
      ensures ServeResult(State(), replies, terminated) == Serve(old(State()), nProc, requests)
    {
      replies := [];
      terminated := false;
      var i := 0;
      while i < |requests|
        invariant 0 <= i <= |requests|
        invariant var r := Serve(State(), nProc, requests[i..]);
          Serve(old(State()), nProc, requests) == ServeResult(r.final, replies + r.replies, r.terminated)
      {
        ghost var before := State();
        assert requests[i..][1..] == requests[i + 1..];
        var reply, stop := Answer(requests[i]);
        replies := replies + [reply];
        if stop {
          terminated := true;
          return;
        }
        i := i + 1;
      }
    }
  }

  /** What rank 0 does in a run: with no configuration it tells every worker
      rank to stop without entering the loop; in dummy mode as written the
      pre-exit list raises before the loop; otherwise it serves the
      requests. */
  datatype CoordOutcome =
    | NoConfigurations(stopped: seq<int>)
    | PreExitFailed(error: PyError)
    | Served(tasks: seq<Task>, preExited: seq<int>, result: ServeResult)

  /** The initial `exited` list with line 240 corrected: the idle ranks in
      dummy mode, empty otherwise. */
  function InitialExited(nProc: nat, nGpus: int, dummy: bool): seq<int>
    requires dummy ==> nGpus > 0
  {
    if dummy then IdleRanks(nProc, nGpus) else []
  }

  /** Lines 209-210: `False` to every rank `1 .. n_proc-1`, in rank order. */
  method StopAll(nProc: nat) returns (stopped: seq<int>)
    ensures |stopped| == if nProc > 1 then nProc - 1 else 0
    ensures forall k :: 0 <= k < |stopped| ==> stopped[k] == k + 1
  {
    stopped := [];
    var subrank := 1;
    while subrank < nProc
      invariant 1 <= subrank <= if nProc > 1 then nProc else 1
      invariant |stopped| == subrank - 1
      invariant forall k :: 0 <= k < |stopped| ==> stopped[k] == k + 1
    {
      stopped := stopped + [subrank];
      subrank := subrank + 1;
    }
  }

  /** Lines 227 and 246-275: rank 0 serves the arriving requests from the
      given task list and `exited` list. */
  method ServeAll(tasks: seq<Task>, exited: seq<int>, nProc: nat, requests: seq<int>) returns (result: ServeResult)
    ensures result == Serve(CoordState(tasks, exited), nProc, requests)
  {
    var c := new Coordinator(tasks, exited, nProc);
    var replies, terminated := c.Listen(requests);
    result := ServeResult(c.State(), replies, terminated);
  }

  /** Rank 0's branch of `main` as written, with the configurations and the
      arriving requests as inputs. In dummy mode line 242 raises before the
      loop is entered; `n_gpus` is read only there. */
  method CoordinatorMain(configs: seq<Config>, isOuter: bool, gen: FoldGenerator,
                         nProc: nat, nGpus: int, dummy: bool, requests: seq<int>)
    returns (outcome: CoordOutcome)
    ensures configs == [] ==> outcome == NoConfigurations(seq(if nProc > 1 then nProc - 1 else 0, k => k + 1))
    ensures configs != [] && dummy ==>
      outcome == PreExitFailed(if nGpus + 1 == 0 then ZeroDivisionError else TypeError)
    ensures configs != [] && !dummy ==>
      var tasks := AllTasks(configs, isOuter, gen);
      outcome == Served(tasks, [], Serve(CoordState(tasks, []), nProc, requests))
  {
    if |configs| == 0 {
      var stopped := StopAll(nProc);
      return NoConfigurations(stopped);
    }
    var tasks := SplitTasks(configs, isOuter, gen);
    var exited: seq<int> := [];
    if dummy {
      var pre := PreExitedAsWritten(nProc, nGpus);
      match pre {
        case Err(e) => return PreExitFailed(e);
        case Ok(v) => exited := v;
      }
    }
    var result := ServeAll(tasks, exited, nProc, requests);
    outcome := Served(tasks, exited, result);
  }

  /** Rank 0's branch of `main` with lines 240-242 corrected to pre-exit
      `(n_proc-1) // (n_gpus+1)` multiples of `n_gpus + 1`: in dummy mode
      the loop starts with every idle rank already exited. */
  method CoordinatorMainCorrected(configs: seq<Config>, isOuter: bool, gen: FoldGenerator,
                                  nProc: nat, nGpus: int, dummy: bool, requests: seq<int>)
    returns (outcome: CoordOutcome)
    requires dummy ==> nGpus > 0
    ensures configs == [] ==> outcome == NoConfigurations(seq(if nProc > 1 then nProc - 1 else 0, k => k + 1))
    ensures configs != [] ==>
      var tasks := AllTasks(configs, isOuter, gen);
      var pre := InitialExited(nProc, nGpus, dummy);
      outcome == Served(tasks, pre, Serve(CoordState(tasks, pre), nProc, requests))
  {
    if |configs| == 0 {
      var stopped := StopAll(nProc);
      return NoConfigurations(stopped);
    }
    var tasks := SplitTasks(configs, isOuter, gen);
    var exited: seq<int> := [];
    if dummy {
      exited := IdleRanks(nProc, nGpus);
    }
    var result := ServeAll(tasks, exited, nProc, requests);
    outcome := Served(tasks, exited, result);
  }

  // ---------------------------------------------------------------------
  // Worker ranks
  // ---------------------------------------------------------------------

  /** The tasks a worker handles: the replies up to the first `False`. */
  function TasksBeforeStop(inbox: seq<Reply>): (r: seq<Task>)
    ensures |r| <= |inbox|
    ensures forall k :: 0 <= k < |r| ==> inbox[k] == Send(r[k])
    ensures |r| < |inbox| ==> inbox[|r|] == NoMoreWork
  {
    if inbox == [] || inbox[0].NoMoreWork? then [] else [inbox[0].task] + TasksBeforeStop(inbox[1..])
  }

  /** The completion log and training record shared by a worker's calls,
      and the task whose training raised, if one did. */
  class TrainingEnv {
    var log: map<LogKey, bool>
    var trained: seq<TrainingCall>
    var failed: Option<Task>

    function Snapshot(): Ledger
      reads this
    {
      Ledger(log, trained, failed)
    }

    constructor (log: map<LogKey, bool>)
      ensures Snapshot() == Ledger(log, [], None)
    {
      this.log := log;
      this.trained := [];
      this.failed := None;
    }

    /** `run_training`: reads the fold's log entry, and unless the fold is
        finished trains it; `is_finished = True` is written only when the
        training returns. `raised` reports the exception that escapes. */
    method RunTraining(rank: nat, t: Task, isOuter: bool, ok: Executor) returns (raised: bool)
      modifies this
      ensures Snapshot() == RunOne(old(Snapshot()), rank, t, isOuter, ok)
      ensures raised <==> !IsFinished(old(log), TaskKey(t, isOuter)) && !ok(TrainingCall(rank, t, isOuter))
    {
      var key := LogKey(t.config.outputPath, JobName(t.config.jobName, t.test, t.validation, isOuter));
      if key in log && log[key] {
        return false;
      }
      var call := TrainingCall(rank, t, isOuter);
      trained := trained + [call];
      if !ok(call) {
        failed := Some(t);
        return true;
      }
      log := log[key := true];
      return false;
    }
  }

  /** A worker rank's branch of `main`. An idle dummy rank does nothing; a
      training rank sends a request, then while the reply is a task runs
      it and, if the training returned, sends the next request; a training
      that raises ends the worker. `inbox` holds the replies addressed to
      this rank; when it runs out the worker is still waiting. */
  method WorkerMain(rank: nat, nGpus: int, dummy: bool, isOuter: bool, inbox: seq<Reply>, env: TrainingEnv, ok: Executor)
    returns (requests: nat)
    requires nGpus > 0 && rank >= 1 && env.failed.None?
    modifies env
    ensures !Trains(rank, nGpus, dummy) ==> requests == 0 && env.Snapshot() == old(env.Snapshot())
    ensures Trains(rank, nGpus, dummy) ==>
      var tasks := TasksBeforeStop(inbox);
      requests == Returned(old(env.Snapshot()), rank, tasks, isOuter, ok) + 1 &&
      env.Snapshot() == RunAll(old(env.Snapshot()), rank, tasks, isOuter, ok)
  {
    requests := 0;
    var indexGpu := GpuIndex(rank, nGpus, dummy);
    if !dummy || (dummy && indexGpu != nGpus) {
      requests := requests + 1;
      var i := 0;
      while i < |inbox| && inbox[i].Send?
        invariant 0 <= i <= |inbox|
        invariant env.failed.None?
        invariant requests == i + 1
        invariant Returned(old(env.Snapshot()), rank, TasksBeforeStop(inbox), isOuter, ok)
               == i + Returned(env.Snapshot(), rank, TasksBeforeStop(inbox[i..]), isOuter, ok)
        invariant RunAll(old(env.Snapshot()), rank, TasksBeforeStop(inbox), isOuter, ok)
               == RunAll(env.Snapshot(), rank, TasksBeforeStop(inbox[i..]), isOuter, ok)
      {
        var task := inbox[i].task;
        var rest := TasksBeforeStop(inbox[i + 1..]);
        assert TasksBeforeStop(inbox[i..]) == [task] + rest by {
          assert inbox[i..][1..] == inbox[i + 1..];
        }
        RunAllStep(env.Snapshot(), rank, task, rest, isOuter, ok);
        var raised := env.RunTraining(rank, task, isOuter, ok);
        if raised {
          return;
        }
        requests := requests + 1;
        i := i + 1;
      }
    }
  }
}
