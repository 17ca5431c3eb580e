/** The single-process training driver: for each configuration in turn it
    checks the validation folds (inner loop only), picks the test folds
    and calls the training loop once per (test fold, epoch count) pair. */
module SequentialProcessing {
  import opened Common

  /** The fields of a configuration that the driver reads. */
  datatype SeqConfig = SeqConfig(
    jobName: string,
    foldList: seq<string>,
    testFoldList: seq<string>,
    validationFoldList: seq<string>,
    epochs: int,
    doNormalize2d: bool,
    useMixedPrecision: bool)

  /** The arguments of one `training_loop` call that come from the driver;
      the metadata frame and the 2D/3D flag come from collaborators that
      are not part of this model. */
  datatype TrainingLoopCall = TrainingLoopCall(
    device: string,
    config: SeqConfig,
    testFold: string,
    epochs: int,
    isOuter: bool,
    rank: Option<nat>,
    verbose: bool)

  /** Why a run stops: `check_unique_subjects` raises for a repeated
      validation fold, or a `training_loop` call raises. */
  datatype SeqError =
    | RepeatedValidationFolds(config: SeqConfig)
    | TrainingFailed(call: TrainingLoopCall)

  /** `get_list_of_epochs(epochs, test_fold_list, is_outer_loop, is_verbose_on)`. */
  type EpochPolicy = (int, seq<string>, bool, bool) -> seq<int>

  /** `check_unique_subjects` as a test: does the list pass? */
  type UniquenessCheck = seq<string> -> bool

  /** Whether a `training_loop` call returns (true) or raises (false). */
  type Trainer = TrainingLoopCall -> bool

  /** The test folds: the configured list, or every fold when it is empty. */
  function TestFolds(c: SeqConfig): (r: seq<string>)
    ensures c.testFoldList == [] ==> r == c.foldList
    ensures c.testFoldList != [] ==> r == c.testFoldList
  {
    if c.testFoldList == [] then c.foldList else c.testFoldList
  }

  function Min(a: int, b: int): int {
    if a <= b then a else b
  }

  /** The `training_loop` calls for one configuration. */
  function ConfigCalls(device: string, c: SeqConfig, isOuter: bool, verbose: bool, epochsFor: EpochPolicy)
    : seq<TrainingLoopCall>
  {
    var folds := TestFolds(c);
    var epochs := epochsFor(c.epochs, folds, isOuter, verbose);
    seq(Min(|folds|, |epochs|), k requires 0 <= k < Min(|folds|, |epochs|) =>
      TrainingLoopCall(device, c, folds[k], epochs[k], isOuter, None, false))
  }

  /** One call per pair of `zip(test_fold_list, list_of_epochs)`, the
      shorter list deciding, each on `device` with `rank=None` and
      `is_verbose_on=False`. */
  lemma ConfigCallsPairs(device: string, c: SeqConfig, isOuter: bool, verbose: bool, epochsFor: EpochPolicy)
    ensures var r := ConfigCalls(device, c, isOuter, verbose, epochsFor);
      var folds := TestFolds(c);
      var epochs := epochsFor(c.epochs, folds, isOuter, verbose);
      |r| == Min(|folds|, |epochs|) &&
      forall k :: 0 <= k < |r| ==>
        r[k].testFold == folds[k] && r[k].epochs == epochs[k] && r[k].config == c &&
        r[k].device == device && r[k].isOuter == isOuter && r[k].rank == None && !r[k].verbose
  {
  }

  /** What a run leaves behind: the calls made, and the error that stopped
      it, if any. */
  datatype Outcome = Outcome(calls: seq<TrainingLoopCall>, error: Option<SeqError>)

  /** The number of calls that return before the first one that raises. */
  function FirstFailure(cc: seq<TrainingLoopCall>, ok: Trainer): (k: nat)
    ensures k <= |cc|
    ensures forall j :: 0 <= j < k ==> ok(cc[j])
    ensures k < |cc| ==> !ok(cc[k])
    decreases |cc|
  {
    if cc == [] || !ok(cc[0]) then 0 else 1 + FirstFailure(cc[1..], ok)
  }

  /** Making the calls `cc` one after the other: the exception of the
      first call that raises ends the sequence. The calls made are a
      prefix of `cc`; all of them return, or all but the last, whose
      exception is the error. */
  function Attempted(cc: seq<TrainingLoopCall>, ok: Trainer): (r: Outcome)
    ensures r.calls <= cc
    ensures r.error.None? <==> forall j :: 0 <= j < |cc| ==> ok(cc[j])
    ensures r.error.None? ==> r.calls == cc
    ensures r.error.Some? ==>
      && r.calls != []
      && r.error == Some(TrainingFailed(r.calls[|r.calls| - 1]))
      && !ok(r.calls[|r.calls| - 1])
      && forall j :: 0 <= j < |r.calls| - 1 ==> ok(r.calls[j])
  {
    var k := FirstFailure(cc, ok);
    if k == |cc| then Outcome(cc, None)
    else Outcome(cc[..k + 1], Some(TrainingFailed(cc[k])))
  }

  /** The first call that raises stops the sequence right after it. */
  lemma AttemptedStops(cc: seq<TrainingLoopCall>, ok: Trainer, k: nat)
    requires k < |cc| && !ok(cc[k])
    requires forall j :: 0 <= j < k ==> ok(cc[j])
    ensures Attempted(cc, ok) == Outcome(cc[..k + 1], Some(TrainingFailed(cc[k])))
  {
    var n := FirstFailure(cc, ok);
    if n < k {
      assert false;
    }
  }

  /** The run over the configurations, in list order; a repeated validation
      fold (inner loop only) stops it before that configuration trains, and
      a `training_loop` call that raises stops it after that call. */
  function Run(device: string, configs: seq<SeqConfig>, isOuter: bool, verbose: bool,
               epochsFor: EpochPolicy, unique: UniquenessCheck, ok: Trainer): Outcome
  {
    if configs == [] then Outcome([], None)
    else
      var prev := Run(device, configs[..|configs| - 1], isOuter, verbose, epochsFor, unique, ok);
      var c := configs[|configs| - 1];
      if prev.error.Some? then prev
      else if !isOuter && !unique(c.validationFoldList) then Outcome(prev.calls, Some(RepeatedValidationFolds(c)))
      else
        var a := Attempted(ConfigCalls(device, c, isOuter, verbose, epochsFor), ok);
        Outcome(prev.calls + a.calls, a.error)
  }

  /** `sequential_processing`. */
  method SequentialProcessing(device: string, configs: seq<SeqConfig>, isOuter: bool, verbose: bool,
                              epochsFor: EpochPolicy, unique: UniquenessCheck, ok: Trainer)
    returns (calls: seq<TrainingLoopCall>, error: Option<SeqError>)
    ensures Outcome(calls, error) == Run(device, configs, isOuter, verbose, epochsFor, unique, ok)
  {
    calls := [];
    var i := 0;
    while i < |configs|
      invariant 0 <= i <= |configs|
      invariant Run(device, configs[..i], isOuter, verbose, epochsFor, unique, ok) == Outcome(calls, None)
    {
      var config := configs[i];
      RunPrefixStep(device, configs, isOuter, verbose, epochsFor, unique, ok, i);
      if !isOuter && !unique(config.validationFoldList) {
        RunStopsAtError(device, configs, isOuter, verbose, epochsFor, unique, ok, i + 1);
        return calls, Some(RepeatedValidationFolds(config));
      }
      calls, error := TrainConfig(device, config, isOuter, verbose, epochsFor, ok, calls);
      if error.Some? {
        RunStopsAtError(device, configs, isOuter, verbose, epochsFor, unique, ok, i + 1);
        return;
      }
      i := i + 1;
    }
    assert configs[..i] == configs;
    error := None;
  }

  /** The body of the configuration loop after the check: one
      `training_loop` call per pair of test fold and epoch count, until a
      call raises. */
  method TrainConfig(device: string, config: SeqConfig, isOuter: bool, verbose: bool, epochsFor: EpochPolicy,
                     ok: Trainer, calls0: seq<TrainingLoopCall>)
    returns (calls: seq<TrainingLoopCall>, error: Option<SeqError>)
    ensures var a := Attempted(ConfigCalls(device, config, isOuter, verbose, epochsFor), ok);
      calls == calls0 + a.calls && error == a.error
  {
    var testFoldList := TestFolds(config);
    var listOfEpochs := epochsFor(config.epochs, testFoldList, isOuter, verbose);
    ghost var cc := ConfigCalls(device, config, isOuter, verbose, epochsFor);
    ConfigCallsPairs(device, config, isOuter, verbose, epochsFor);
    calls := calls0;
    var k := 0;
    while k < |testFoldList| && k < |listOfEpochs|
      invariant 0 <= k <= |cc| == Min(|testFoldList|, |listOfEpochs|)
      invariant forall j :: 0 <= j < k ==> ok(cc[j])
      invariant calls == calls0 + cc[..k]
    {
      assert cc[..k + 1] == cc[..k] + [cc[k]];
      var call := TrainingLoopCall(device, config, testFoldList[k], listOfEpochs[k], isOuter, None, false);
      assert call == cc[k];
      calls := calls + [call];
      if !ok(call) {
        AttemptedStops(cc, ok, k);
        return calls, Some(TrainingFailed(call));
      }
      k := k + 1;
    }
    assert cc[..k] == cc;
    error := None;
  }

  /** The last configuration of a run is processed after all the others. */
  lemma RunLast(device: string, configs: seq<SeqConfig>, isOuter: bool, verbose: bool,
                epochsFor: EpochPolicy, unique: UniquenessCheck, ok: Trainer)
    requires configs != []
    ensures var prev := Run(device, configs[..|configs| - 1], isOuter, verbose, epochsFor, unique, ok);
      var c := configs[|configs| - 1];
      var a := Attempted(ConfigCalls(device, c, isOuter, verbose, epochsFor), ok);
      Run(device, configs, isOuter, verbose, epochsFor, unique, ok) ==
        if prev.error.Some? then prev
        else if !isOuter && !unique(c.validationFoldList) then Outcome(prev.calls, Some(RepeatedValidationFolds(c)))
        else Outcome(prev.calls + a.calls, a.error)
  {
  }

  /** The run over the first `i + 1` configurations continues the run over
      the first `i`. */
  lemma RunPrefixStep(device: string, configs: seq<SeqConfig>, isOuter: bool, verbose: bool,
                      epochsFor: EpochPolicy, unique: UniquenessCheck, ok: Trainer, i: nat)
    requires i < |configs|
    ensures var prev := Run(device, configs[..i], isOuter, verbose, epochsFor, unique, ok);
      var c := configs[i];
      var a := Attempted(ConfigCalls(device, c, isOuter, verbose, epochsFor), ok);
      Run(device, configs[..i + 1], isOuter, verbose, epochsFor, unique, ok) ==
        if prev.error.Some? then prev
        else if !isOuter && !unique(c.validationFoldList) then Outcome(prev.calls, Some(RepeatedValidationFolds(c)))
        else Outcome(prev.calls + a.calls, a.error)
  {
    RunLast(device, configs[..i + 1], isOuter, verbose, epochsFor, unique, ok);
    assert configs[..i + 1][..i] == configs[..i] && configs[..i + 1][i] == configs[i];
  }

  /** In a run without error, the last configuration adds all its calls
      after those of the others. */
  lemma RunLastOk(device: string, configs: seq<SeqConfig>, isOuter: bool, verbose: bool,
                  epochsFor: EpochPolicy, unique: UniquenessCheck, ok: Trainer)
    requires configs != []
    requires Run(device, configs, isOuter, verbose, epochsFor, unique, ok).error.None?
    ensures var prev := Run(device, configs[..|configs| - 1], isOuter, verbose, epochsFor, unique, ok);
      prev.error.None? &&
      Run(device, configs, isOuter, verbose, epochsFor, unique, ok).calls ==
        prev.calls + ConfigCalls(device, configs[|configs| - 1], isOuter, verbose, epochsFor)
  {
  }

  /** Once the run has stopped, the configurations after that point
      change nothing. */
  lemma {:induction false} RunStopsAtError(device: string, configs: seq<SeqConfig>, isOuter: bool, verbose: bool,
                                           epochsFor: EpochPolicy, unique: UniquenessCheck, ok: Trainer, i: nat)
    requires i <= |configs|
    requires Run(device, configs[..i], isOuter, verbose, epochsFor, unique, ok).error.Some?
    ensures Run(device, configs, isOuter, verbose, epochsFor, unique, ok) ==
            Run(device, configs[..i], isOuter, verbose, epochsFor, unique, ok)
    decreases |configs|
  {
    if i < |configs| {
      var init := configs[..|configs| - 1];
      assert init[..i] == configs[..i];
      RunStopsAtError(device, init, isOuter, verbose, epochsFor, unique, ok, i);
    } else {
      assert configs[..i] == configs;
    }
  }

  /** The calls of every configuration, each configuration's calls after
      those of the configurations before it. */
  function AllConfigCalls(device: string, configs: seq<SeqConfig>, isOuter: bool, verbose: bool, epochsFor: EpochPolicy)
    : seq<TrainingLoopCall>
  {
    if configs == [] then []
    else
      AllConfigCalls(device, configs[..|configs| - 1], isOuter, verbose, epochsFor)
        + ConfigCalls(device, configs[|configs| - 1], isOuter, verbose, epochsFor)
  }

  /** Some configuration's validation folds fail the check (inner loop only). */
  predicate SomeCheckFails(configs: seq<SeqConfig>, isOuter: bool, unique: UniquenessCheck) {
    !isOuter && exists i :: 0 <= i < |configs| && !unique(configs[i].validationFoldList)
  }

  /** Some call of the full schedule raises. */
  predicate SomeCallRaises(all: seq<TrainingLoopCall>, ok: Trainer) {
    exists j :: 0 <= j < |all| && !ok(all[j])
  }

  lemma SomeCheckFailsSnoc(configs: seq<SeqConfig>, isOuter: bool, unique: UniquenessCheck)
    requires configs != []
    ensures var init := configs[..|configs| - 1];
      SomeCheckFails(configs, isOuter, unique) <==>
        SomeCheckFails(init, isOuter, unique) || (!isOuter && !unique(configs[|configs| - 1].validationFoldList))
  {
    var init := configs[..|configs| - 1];
    if SomeCheckFails(init, isOuter, unique) {
      var i :| 0 <= i < |init| && !unique(init[i].validationFoldList);
      assert configs[i] == init[i];
    }
    if SomeCheckFails(configs, isOuter, unique) {
      var i :| 0 <= i < |configs| && !unique(configs[i].validationFoldList);
      if i < |init| {
        assert init[i] == configs[i];
      }
    }
  }

  lemma SomeCallRaisesAppend(a: seq<TrainingLoopCall>, b: seq<TrainingLoopCall>, ok: Trainer)
    ensures SomeCallRaises(a + b, ok) <==> SomeCallRaises(a, ok) || SomeCallRaises(b, ok)
  {
    if SomeCallRaises(a, ok) {
      var j :| 0 <= j < |a| && !ok(a[j]);
      assert (a + b)[j] == a[j];
    }
    if SomeCallRaises(b, ok) {
      var j :| 0 <= j < |b| && !ok(b[j]);
      assert (a + b)[|a| + j] == b[j];
    }
    if SomeCallRaises(a + b, ok) {
      var j :| 0 <= j < |a + b| && !ok((a + b)[j]);
      if j >= |a| {
        assert (a + b)[j] == b[j - |a|];
      }
    }
  }

  /** A run stops with an error exactly when some configuration's
      validation folds fail the check (inner loop only) or some call of the
      full schedule raises: either way it cannot get past that point. */
  lemma {:induction false} RunErrorIff(device: string, configs: seq<SeqConfig>, isOuter: bool, verbose: bool,
                                       epochsFor: EpochPolicy, unique: UniquenessCheck, ok: Trainer)
    ensures Run(device, configs, isOuter, verbose, epochsFor, unique, ok).error.Some? <==>
      SomeCheckFails(configs, isOuter, unique) ||
      SomeCallRaises(AllConfigCalls(device, configs, isOuter, verbose, epochsFor), ok)
  {
    if configs != [] {
      var init := configs[..|configs| - 1];
      RunErrorIff(device, init, isOuter, verbose, epochsFor, unique, ok);
      SomeCheckFailsSnoc(configs, isOuter, unique);
      var cc := ConfigCalls(device, configs[|configs| - 1], isOuter, verbose, epochsFor);
      SomeCallRaisesAppend(AllConfigCalls(device, init, isOuter, verbose, epochsFor), cc, ok);
    }
  }

  /** A run that passes its checks processes the configurations in list
      order, each one completely before the next. */
  lemma {:induction false} RunInOrder(device: string, configs: seq<SeqConfig>, isOuter: bool, verbose: bool,
                                      epochsFor: EpochPolicy, unique: UniquenessCheck, ok: Trainer)
    requires Run(device, configs, isOuter, verbose, epochsFor, unique, ok).error.None?
    ensures Run(device, configs, isOuter, verbose, epochsFor, unique, ok).calls ==
      AllConfigCalls(device, configs, isOuter, verbose, epochsFor)
  {
    if configs != [] {
      RunLastOk(device, configs, isOuter, verbose, epochsFor, unique, ok);
      RunInOrder(device, configs[..|configs| - 1], isOuter, verbose, epochsFor, unique, ok);
    }
  }

  /** The calls a run makes are the start of the full schedule; every one
      of them returned except, when a training raised, the last one, whose
      exception is the run's error. */
  lemma {:induction false} RunCallsSucceed(device: string, configs: seq<SeqConfig>, isOuter: bool, verbose: bool,
                                           epochsFor: EpochPolicy, unique: UniquenessCheck, ok: Trainer)
    ensures var r := Run(device, configs, isOuter, verbose, epochsFor, unique, ok);
      && r.calls <= AllConfigCalls(device, configs, isOuter, verbose, epochsFor)
      && (forall j :: 0 <= j < |r.calls| - 1 ==> ok(r.calls[j]))
      && (r.error.Some? && r.error.value.TrainingFailed? ==>
            r.calls != [] && r.error.value.call == r.calls[|r.calls| - 1] && !ok(r.calls[|r.calls| - 1]))
      && (r.error.None? || r.error.value.RepeatedValidationFolds? ==> forall j :: 0 <= j < |r.calls| ==> ok(r.calls[j]))
  {
    if configs != [] {
      var init := configs[..|configs| - 1];
      RunCallsSucceed(device, init, isOuter, verbose, epochsFor, unique, ok);
      var prev := Run(device, init, isOuter, verbose, epochsFor, unique, ok);
      var all0 := AllConfigCalls(device, init, isOuter, verbose, epochsFor);
      var cc := ConfigCalls(device, configs[|configs| - 1], isOuter, verbose, epochsFor);
      if prev.error.None? && (isOuter || unique(configs[|configs| - 1].validationFoldList)) {
        var a := Attempted(cc, ok);
        var calls := prev.calls + a.calls;
        RunInOrder(device, init, isOuter, verbose, epochsFor, unique, ok);
        assert calls <= all0 + cc;
        forall j | 0 <= j < |calls| - 1
          ensures ok(calls[j])
        {
          if j >= |prev.calls| {
            assert calls[j] == a.calls[j - |prev.calls|];
          }
        }
      }
    }
  }

  /** The calls pass `rank=None` and `is_verbose_on=False` on `device`. */
  predicate Quiet(calls: seq<TrainingLoopCall>, device: string) {
    forall k :: 0 <= k < |calls| ==> calls[k].rank == None && !calls[k].verbose && calls[k].device == device
  }

  /** Every call the driver makes passes `rank=None` and `is_verbose_on=False`,
      whatever verbosity the driver itself was given. */
  lemma {:induction false} RunCallsQuiet(device: string, configs: seq<SeqConfig>, isOuter: bool, verbose: bool,
                                         epochsFor: EpochPolicy, unique: UniquenessCheck, ok: Trainer)
    ensures Quiet(Run(device, configs, isOuter, verbose, epochsFor, unique, ok).calls, device)
  {
    if configs != [] {
      var init := configs[..|configs| - 1];
      RunCallsQuiet(device, init, isOuter, verbose, epochsFor, unique, ok);
      var prev := Run(device, init, isOuter, verbose, epochsFor, unique, ok);
      var cc := ConfigCalls(device, configs[|configs| - 1], isOuter, verbose, epochsFor);
      if prev.error.None? && (isOuter || unique(configs[|configs| - 1].validationFoldList)) {
        ConfigCallsPairs(device, configs[|configs| - 1], isOuter, verbose, epochsFor);
        var a := Attempted(cc, ok);
        assert forall k :: 0 <= k < |a.calls| ==> a.calls[k] == cc[k];
      }
    }
  }
}
