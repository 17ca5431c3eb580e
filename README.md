# NACHOS training and result scripts: a Dafny model

This project models the orchestration layer of the NACHOS training scripts and the
small text and sequence transforms in three of its result-processing helpers.
Training, plotting and the confusion matrix itself are left to the collaborators
the scripts call.

- **MPI scheduler** (`MpiProcessing`). Models `scripts/training/training_multiprocessing/mpi_processing.py`:
  - `split_tasks` flattens the configurations into `(config, n_epochs, test, validation)` tasks.
  - A fold's job name keys a completion log, so that `run_training` skips finished folds.
  - A rank's GPU index is computed by modular arithmetic. In "dummy" mode, every `(n_gpus+1)`-th rank stays idle.
  - Rank 0 runs a loop. For each request it pops a task from the tail of the list or answers `False`, and it breaks once every worker rank has been told to stop.
  - A worker sends a request, then runs one task per reply until the first `False`. A training that raises ends the worker.
  - MPI itself is not modelled as concurrency. The coordinator sees an arbitrary sequence of requesting ranks, and a worker sees the sequence of replies addressed to it.
- **Sequential driver** (`SequentialProcessing`). Models `sequential_processing`:
  - it chooses the test folds, where an empty list means all folds;
  - it checks validation folds for uniqueness in the inner loop only;
  - it calls the training loop once per pair of `zip(test_fold_list, list_of_epochs)`;
  - a failed check or a training call that raises ends the run.
- **Launcher checks** (`TrainingSequential`). Models the argument checks of `run_training`: the device count against the parallel flag, the loop type, `is_cv_loop`, and the `CT`/`CV` timing folder.
- **`mpirun` command builder** (`MpiInit`). Models `mpi_init.main`. It builds the command by successive appends. The ping results and the host address are inputs.
- **Confusion-matrix file loop** (`ConfusionMatrix`). Models `generate_cf`:
  - the two fixed patterns, as a small greedy matcher proved equal to Python's backtracking semantics;
  - `re.search`, as the leftmost anchored match;
  - the loop that writes one matrix per prediction file.
- **ROC driver** (`RocCurveGraphing`). Models `run_program` and `generate_json`. The argument dictionary is a class whose map field is updated in place and reused for every plotting call.
- **Predicted-value formatter** (`PredictedFormatter`). Models `translate_file` (row argmax), `write_file` (output path and content) and the nested loop of `main`.
- **Shared modules.** `Common` holds the path dictionaries the path getter returns, modelled as ordered association lists (Python dicts iterate in insertion order), together with their nested traversal. `Text` holds the few Python string operations the scripts use: `str`, `join`, `split('/')[-1]`, `replace`.

Collaborators the scripts call but whose code is not part of this model become function-valued parameters. These are:

- `generate_pairs`, `get_list_of_epochs`, `check_unique_subjects` and `determine_if_cv_loop`;
- `get_newfilepath_from_predictions`;
- the ping of a host;
- the CSV reader.

`roc_curve.main` is recorded as the dictionary it receives.

## Model

| member | source | states |
|---|---|---|
| MpiProcessing.PairsRequestFor | scripts/training/training_multiprocessing/mpi_processing.py:67-73 | `generate_pairs` gets the configuration's test subjects, shuffle flag and epochs; the validation list is `None` exactly in the outer loop and the configuration's validation subjects otherwise |
| MpiProcessing.ConfigTasks | scripts/training/training_multiprocessing/mpi_processing.py:76 | one task per generated fold, in fold order, each carrying the configuration and that fold's epochs, test and validation subject |
| MpiProcessing.SplitTasks | scripts/training/training_multiprocessing/mpi_processing.py:52-77 | the loop that extends `tasks` yields the configurations' task lists concatenated in configuration order |
| MpiProcessing.AllTasksLength | scripts/training/training_multiprocessing/mpi_processing.py:63-77 | the task list is as long as the sum of the per-configuration fold counts |
| MpiProcessing.AllTasksAppend | scripts/training/training_multiprocessing/mpi_processing.py:63-77 | flattening distributes over concatenation of configuration lists |
| MpiProcessing.AllTasksFrom | scripts/training/training_multiprocessing/mpi_processing.py:76 | every task is one fold generated for some configuration of the list, tagged with that configuration |
| MpiProcessing.JobNameOuterInjective | scripts/training/training_multiprocessing/mpi_processing.py:90 | outer-loop job names `{job}_test_{t}` of one job differ for different test subjects |
| MpiProcessing.JobNameInnerInjective | scripts/training/training_multiprocessing/mpi_processing.py:90 | inner-loop names `{job}_test_{t}_sub_{v}` tell (test, validation) pairs apart when test subjects contain no underscore |
| MpiProcessing.JobNameInnerCollision | scripts/training/training_multiprocessing/mpi_processing.py:90 | without that restriction two different folds share a completion-log key |
| MpiProcessing.RunOneEffect | scripts/training/training_multiprocessing/mpi_processing.py:98-113 | a fold logged as finished is neither trained nor written; any other fold is trained once and logged `is_finished = True` exactly when its training returns; a training that raises leaves the log unchanged and is recorded as the failure |
| MpiProcessing.RunAllMonotone | scripts/training/training_multiprocessing/mpi_processing.py:108-113 | an `is_finished = True` entry is never reset by later calls |
| MpiProcessing.RunAllExtends | scripts/training/training_multiprocessing/mpi_processing.py:297-305 | a worker's calls only add to the training record |
| MpiProcessing.RunAllMarks | scripts/training/training_multiprocessing/mpi_processing.py:297-305 | after a worker's calls, every fold whose `run_training` returned is logged as finished |
| MpiProcessing.RunAllFailure | scripts/training/training_multiprocessing/mpi_processing.py:297-305 | the calls return one after another until the first that raises; all of them return when none raises; otherwise the failed fold stays unfinished in the log, its training is the last one started and no later task runs |
| MpiProcessing.RunAllTrainsOnce | scripts/training/training_multiprocessing/mpi_processing.py:89-113 | a fold finished beforehand is never trained, and no log entry (output path and job name) is trained twice even when the same fold is handed out again |
| MpiProcessing.SeparateOutputPaths | scripts/training/training_multiprocessing/mpi_processing.py:91-112 | two folds whose configurations write to different output paths have separate log entries, so both are trained even when their job names agree |
| MpiProcessing.GpuIndex | scripts/training/training_multiprocessing/mpi_processing.py:188-191 | the GPU index lies in `[0, n_gpus)`, or in `[0, n_gpus]` in dummy mode |
| MpiProcessing.DummyTrainsIff | scripts/training/training_multiprocessing/mpi_processing.py:285 | in dummy mode a rank binds a GPU and trains exactly when it is not a multiple of `n_gpus + 1` |
| MpiProcessing.CycleBindsDistinct | scripts/training/training_multiprocessing/mpi_processing.py:191 | without dummy mode, the `n_gpus` ranks of one cycle bind pairwise different GPUs |
| MpiProcessing.TwoGpuDummyLayout | scripts/training/training_multiprocessing/mpi_processing.py:177-188 | with two GPUs in dummy mode, ranks 3, 6 and 9 are idle and the others alternate between GPUs 0 and 1, as the layout comment draws it |
| MpiProcessing.PreExitedAsWrittenFails | scripts/training/training_multiprocessing/mpi_processing.py:240-242 | as written, true division makes the count a float and `range` raises `TypeError` for every `n_proc` and every `n_gpus` but `-1`, where the division itself raises `ZeroDivisionError` |
| MpiProcessing.PreExited | scripts/training/training_multiprocessing/mpi_processing.py:240-242 | with the division floored and the count kept, the list holds `n_proc // (n_gpus+1) - 1` entries, the k-th being `(k+1) * (n_gpus+1)` |
| MpiProcessing.PreExitedSound | scripts/training/training_multiprocessing/mpi_processing.py:240-242 | every rank of that floor-division list is a multiple of `n_gpus + 1` strictly between 0 and `n_proc` |
| MpiProcessing.PreExitedComplete | scripts/training/training_multiprocessing/mpi_processing.py:240-242 | when `n_proc` is a multiple of `n_gpus + 1`, every such multiple up to `n_proc - (n_gpus+1)` is pre-exited |
| MpiProcessing.PreExitedAreIdleRanks | scripts/training/training_multiprocessing/mpi_processing.py:240-242 | when `n_proc` is a multiple of `n_gpus + 1`, the floor-division list is exactly the worker ranks `1..n_proc-1` that never train (line 285) |
| MpiProcessing.PreExitedHangs | scripts/training/training_multiprocessing/mpi_processing.py:240-275 | with ten processes and two GPUs the floor-division list is `[3, 6]`, rank 9 is idle as well and never asks, so the loop never breaks |
| MpiProcessing.IdleRanks | scripts/training/training_multiprocessing/mpi_processing.py:240-242 | the corrected list holds `(n_proc-1) // (n_gpus+1)` entries, the k-th being `(k+1) * (n_gpus+1)` |
| MpiProcessing.IdleRanksExact | scripts/training/training_multiprocessing/mpi_processing.py:240-242 | for every `n_proc`, the corrected list is exactly the worker ranks `1..n_proc-1` that never train (line 285) |
| MpiProcessing.IdleRanksServeTerminates | scripts/training/training_multiprocessing/mpi_processing.py:240-275 | with the corrected list, the loop breaks once the tasks are handed out and every training rank has asked once more |
| MpiProcessing.Serve | scripts/training/training_multiprocessing/mpi_processing.py:246-275 | the loop answers at most one reply per request, and answers all of them unless it breaks |
| MpiProcessing.ServeReplies | scripts/training/training_multiprocessing/mpi_processing.py:248-260 | each request gets one reply; the first `len(tasks)` replies hand out the tasks from the tail, each once, later replies are `False`, and the list shrinks by one per task sent |
| MpiProcessing.ServeExited | scripts/training/training_multiprocessing/mpi_processing.py:256-260 | `exited` grows by the requesting rank at each `False` and at nothing else |
| MpiProcessing.ServeBreaks | scripts/training/training_multiprocessing/mpi_processing.py:263-275 | the loop breaks only after a `False`, once every rank `1..n_proc-1` is in `exited`, and at the first such point; no `False` is sent while tasks remain |
| MpiProcessing.ServeTerminates | scripts/training/training_multiprocessing/mpi_processing.py:246-275 | if requests outnumber the tasks and every rank not yet exited asks once after the tasks run out, the loop breaks |
| MpiProcessing.ServeTerminatedCovers | scripts/training/training_multiprocessing/mpi_processing.py:263-275 | when the loop breaks, every rank not exited beforehand asked after the tasks ran out |
| MpiProcessing.ServeWaitsFor | scripts/training/training_multiprocessing/mpi_processing.py:246-275 | the loop never breaks while a rank not yet exited sends no request after the tasks run out, as a worker whose training raised does not |
| MpiProcessing.Coordinator.constructor | scripts/training/training_multiprocessing/mpi_processing.py:224-244 | rank 0 starts with the task list and the initial `exited` list |
| MpiProcessing.Coordinator.Answer | scripts/training/training_multiprocessing/mpi_processing.py:248-275 | one loop iteration pops and sends the last task, or sends `False`, records the rank and reports whether to break |
| MpiProcessing.Coordinator.Listen | scripts/training/training_multiprocessing/mpi_processing.py:246-275 | the `while True` loop over arriving requests leaves the state, replies and break flag of `Serve` |
| MpiProcessing.StopAll | scripts/training/training_multiprocessing/mpi_processing.py:209-210 | `False` goes to every rank `1..n_proc-1`, once each, in rank order |
| MpiProcessing.ServeAll | scripts/training/training_multiprocessing/mpi_processing.py:246-275 | the loop run on a fresh rank-0 state leaves the replies, state and break flag of `Serve` |
| MpiProcessing.CoordinatorMain | scripts/training/training_multiprocessing/mpi_processing.py:194-275 | as written: with no configuration every rank `1..n_proc-1` is told to stop and the loop is never entered; in dummy mode the pre-exit at lines 240-242 raises before the loop (`TypeError`, or `ZeroDivisionError` when `n_gpus + 1 == 0`); otherwise the tasks of `split_tasks` are served from an empty `exited` list |
| MpiProcessing.CoordinatorMainCorrected | scripts/training/training_multiprocessing/mpi_processing.py:194-275 | with lines 240-242 corrected to pre-exit every idle rank, dummy mode serves the same tasks starting from those ranks already exited |
| MpiProcessing.TasksBeforeStop | scripts/training/training_multiprocessing/mpi_processing.py:294-305 | the tasks a worker runs are its replies up to, and not including, the first `False` |
| MpiProcessing.TrainingEnv.constructor | scripts/training/training_multiprocessing/mpi_processing.py:91-95 | a worker starts with the given completion log, nothing trained and no failure |
| MpiProcessing.TrainingEnv.RunTraining | scripts/training/training_multiprocessing/mpi_processing.py:80-113 | `run_training` skips a finished fold; otherwise it trains the fold, logs it finished when the training returns, and when the training raises reports it and leaves the log unchanged |
| MpiProcessing.WorkerMain | scripts/training/training_multiprocessing/mpi_processing.py:278-305 | an idle dummy rank sends nothing and trains nothing; a training rank runs `run_training` once per task before the first `False` until a call raises, and sends one request more than the calls that returned |
| SequentialProcessing.TestFolds | nachosv2/training/training_sequential/sequential_processing.py:82-85 | an empty test-fold list means every fold; otherwise the list is used unchanged |
| SequentialProcessing.ConfigCallsPairs | nachosv2/training/training_sequential/sequential_processing.py:93-108 | `min(len(test_folds), len(epochs))` calls per configuration, call i with test fold i and epoch count i, `rank=None`, `is_verbose_on=False` |
| SequentialProcessing.SequentialProcessing | nachosv2/training/training_sequential/sequential_processing.py:15-108 | the nested loops make the calls, and stop at the error (a failed check or a raising `training_loop` call), that the specification of the run gives |
| SequentialProcessing.TrainConfig | nachosv2/training/training_sequential/sequential_processing.py:93-108 | the inner loop makes one configuration's calls in order and stops right after the first that raises |
| SequentialProcessing.FirstFailure | nachosv2/training/training_sequential/sequential_processing.py:93-108 | the calls before the position found all return, and the call at it, if any, raises |
| SequentialProcessing.Attempted | nachosv2/training/training_sequential/sequential_processing.py:93-108 | the calls made are a prefix of the planned ones; all of them return, or all but the last, whose exception is the error |
| SequentialProcessing.RunStopsAtError | nachosv2/training/training_sequential/sequential_processing.py:35-108 | once a configuration fails the uniqueness check or a training call raises, later configurations change nothing |
| SequentialProcessing.RunErrorIff | nachosv2/training/training_sequential/sequential_processing.py:74-108 | a run fails exactly when it is an inner-loop run and some configuration's validation folds fail the check, or some call of the full schedule raises |
| SequentialProcessing.RunInOrder | nachosv2/training/training_sequential/sequential_processing.py:35 | configurations are processed in list order, each completely before the next |
| SequentialProcessing.RunCallsSucceed | nachosv2/training/training_sequential/sequential_processing.py:35-108 | the calls made are a prefix of the full schedule; every one returned, except that when a training raised it is the last call and the run's error |
| SequentialProcessing.RunCallsQuiet | nachosv2/training/training_sequential/sequential_processing.py:106-107 | every call is made on the given device with `rank=None` and `is_verbose_on=False` |
| TrainingSequential.LoopFolder | nachosv2/training/training_sequential/training_sequential.py:78 | the folder is `CT` exactly for cross-testing and `CV` exactly for cross-validation |
| TrainingSequential.RunTraining | nachosv2/training/training_sequential/training_sequential.py:22-79 | several devices without parallelisation raise first; then an unknown loop type raises; otherwise `is_cv_loop` holds exactly for cross-validation and the timing directory is `Path(output_path) / <CT or CV> / "training_timings"`, given as its three components |
| MpiInit.DeviceList | scripts/training/training_multiprocessing/mpi_init.py:24 | one decimal rendering per configured device, in order |
| MpiInit.FirstUnreachable | scripts/training/training_multiprocessing/mpi_init.py:33-36 | no host is reported exactly when every ping succeeds; a reported host fails and every host before it answers |
| MpiInit.BuildCommand | scripts/training/training_multiprocessing/mpi_init.py:13-54 | the successive appends to `arg` build the command of the specification, or raise for the first unreachable host |
| MpiInit.NoDevicesNoPrefix | scripts/training/training_multiprocessing/mpi_init.py:23-26 | without devices the command does not start with `CUDA_VISIBLE_DEVICES=` |
| MpiInit.DevicesPrefix | scripts/training/training_multiprocessing/mpi_init.py:23-26 | with devices the command starts with `CUDA_VISIBLE_DEVICES=`, the comma-joined devices and a space |
| MpiInit.CudaPrefixIff | scripts/training/training_multiprocessing/mpi_init.py:23-26 | the command starts with the CUDA variable exactly when devices are given |
| MpiInit.HostFirst | scripts/training/training_multiprocessing/mpi_init.py:39-41 | with addresses the command is the prefix, `mpirun -H `, the host address then the addresses comma-joined, a space and the module |
| MpiInit.ProcessCount | scripts/training/training_multiprocessing/mpi_init.py:45-48 | without addresses the command asks `mpirun -n` for one process more than configured, and that count reads back as `n_processes + 1` |
| MpiInit.ModuleAtEnd | scripts/training/training_multiprocessing/mpi_init.py:51-54 | the command ends with the outer-loop module exactly in outer mode and with the inner-loop module otherwise |
| MpiInit.UnreachableIsFirst | scripts/training/training_multiprocessing/mpi_init.py:33-36 | an error names the first address, in list order, that does not answer |
| ConfusionMatrix.RunLen | nachosv2/results_processing/confusion_matrix/get_confusion_matrix.py:57 | a greedy group's run ends at the end of the name or before a character outside its class |
| ConfusionMatrix.RunInClass | nachosv2/results_processing/confusion_matrix/get_confusion_matrix.py:57 | the run a group takes consists of characters of its class |
| ConfusionMatrix.MatchFits | nachosv2/results_processing/confusion_matrix/get_confusion_matrix.py:57-70 | every group of a match is a non-empty run of its class (`[A-Za-z0-9]+` or `[0-9]+`) |
| ConfusionMatrix.MatchRender | nachosv2/results_processing/confusion_matrix/get_confusion_matrix.py:57-70 | groups of the right classes, written into the pattern's text with the last group ending its run, are matched back exactly |
| ConfusionMatrix.GreedyIsBacktracking | nachosv2/results_processing/confusion_matrix/get_confusion_matrix.py:65 | for patterns whose literals stop every group, the greedy matcher agrees with Python's backtracking semantics |
| ConfusionMatrix.ShorterFails | nachosv2/results_processing/confusion_matrix/get_confusion_matrix.py:65 | a group shorter than its maximal run cannot be followed by a literal it would run into |
| ConfusionMatrix.FirstMatch | nachosv2/results_processing/confusion_matrix/get_confusion_matrix.py:65 | the position found is one where the pattern matches and no earlier position matches |
| ConfusionMatrix.SearchNone | nachosv2/results_processing/confusion_matrix/get_confusion_matrix.py:65-66 | `re.search` finds nothing exactly when the pattern matches at no position |
| ConfusionMatrix.SearchFirst | nachosv2/results_processing/confusion_matrix/get_confusion_matrix.py:65 | `re.search` returns the match at the leftmost matching position |
| ConfusionMatrix.PatternsSeparated | nachosv2/results_processing/confusion_matrix/get_confusion_matrix.py:54-60 | both patterns follow every group with a literal that starts with `_`, outside both classes, or end with it |
| ConfusionMatrix.MatchCount | nachosv2/results_processing/confusion_matrix/get_confusion_matrix.py:67-70 | a match has three groups for the cross-validation pattern and two for the cross-testing one |
| ConfusionMatrix.ToGroups | nachosv2/results_processing/confusion_matrix/get_confusion_matrix.py:67-70 | test fold and configuration index are groups 0 and 1; a validation fold exists exactly when there is a third group |
| ConfusionMatrix.ParseName | nachosv2/results_processing/confusion_matrix/get_confusion_matrix.py:54-70 | a parsed name has a validation fold exactly for the cross-validation pattern |
| ConfusionMatrix.CvRoundTrip | nachosv2/results_processing/confusion_matrix/get_confusion_matrix.py:57 | a name holding `test_t_hpconfig_h_val_v`, with no earlier match and no alphanumeric after `v`, parses back to `(t, h, v)` |
| ConfusionMatrix.CtRoundTrip | nachosv2/results_processing/confusion_matrix/get_confusion_matrix.py:60 | a name holding `test_t_hpconfig_h`, with no earlier match and no digit after `h`, parses back to `(t, h, None)` |
| ConfusionMatrix.CfFiles | nachosv2/results_processing/confusion_matrix/get_confusion_matrix.py:63-85 | one report per file, in order, each with its parse and its output path, whether or not the name matches |
| ConfusionMatrix.CvChoice | nachosv2/results_processing/confusion_matrix/get_confusion_matrix.py:51-52 | a given flag is used; otherwise the first file decides, and an empty list is an `IndexError` |
| ConfusionMatrix.GenerateCf | nachosv2/results_processing/confusion_matrix/get_confusion_matrix.py:43-85 | `generate_cf` fails exactly when the pattern cannot be chosen; otherwise every file gets its matrix written |
| RocCurveGraphing.PrefixWithoutSlash | src/results_processing/roc_curve/roc_curve_graphing.py:55 | a path without `/` is used whole, with the suffix removed |
| RocCurveGraphing.ReplaceSuffixAlone | src/results_processing/roc_curve/roc_curve_graphing.py:50-55 | a file named only by the suffix gets the empty prefix |
| RocCurveGraphing.PrefixOfTrueLabelFile | src/results_processing/roc_curve/roc_curve_graphing.py:50-55 | the prefix of `dir/name true label index.csv` is `name`, when `name` has no `/` and the suffix does not start inside it |
| RocCurveGraphing.CopySettings | src/results_processing/roc_curve/roc_curve_graphing.py:13-19 | the comprehension copies exactly the listed keys with their values, or raises `KeyError` for the first one missing |
| RocCurveGraphing.InitialJson | src/results_processing/roc_curve/roc_curve_graphing.py:13-19 | the starting dictionary holds exactly the nine settings copied from the configuration |
| RocCurveGraphing.SetKeysTwice | src/results_processing/roc_curve/roc_curve_graphing.py:53-55 | setting the three keys again overwrites every trace of the previous item |
| RocCurveGraphing.PointedAtTwice | src/results_processing/roc_curve/roc_curve_graphing.py:53-55 | reusing the dictionary for a second item leaves it as if only that item had been set |
| RocCurveGraphing.JsonArgs.constructor | src/results_processing/roc_curve/roc_curve_graphing.py:13 | the dictionary object starts with the given entries |
| RocCurveGraphing.GenerateJson | src/results_processing/roc_curve/roc_curve_graphing.py:44-57 | sets the prediction path, the true path and the prefix in place, changes no other key and returns the same object; a failed lookup raises and keeps the keys set before it |
| RocCurveGraphing.RocFromAppend | src/results_processing/roc_curve/roc_curve_graphing.py:22-27 | the run over two item lists is the run over the first continued by the run over the second |
| RocCurveGraphing.CallsMatchStep | src/results_processing/roc_curve/roc_curve_graphing.py:24-27 | one more item keeps the per-call relation |
| RocCurveGraphing.RocRunCalls | src/results_processing/roc_curve/roc_curve_graphing.py:22-27 | one plotting call per item, in nested order, each seeing the settings plus that item's paths, until the first lookup that fails |
| RocCurveGraphing.RocRunComplete | src/results_processing/roc_curve/roc_curve_graphing.py:22-27 | when the true-label tree has an entry for every prediction file, every item is plotted once, with its own prediction path |
| RocCurveGraphing.AllItemsAt | src/results_processing/roc_curve/roc_curve_graphing.py:22-24 | every item of the traversal names a file that the lookup of its keys finds |
| RocCurveGraphing.RocFromStopped | src/results_processing/roc_curve/roc_curve_graphing.py:22-27 | after an exception, later items change nothing |
| RocCurveGraphing.PlotSubject | src/results_processing/roc_curve/roc_curve_graphing.py:24-27 | the innermost loop makes the calls the run over that subject's items makes |
| RocCurveGraphing.PlotModel | src/results_processing/roc_curve/roc_curve_graphing.py:23-27 | the middle loop makes the calls the run over that model's items makes |
| RocCurveGraphing.RunProgram | src/results_processing/roc_curve/roc_curve_graphing.py:6-27 | a missing `data_path` raises `KeyError` first; otherwise `run_program` makes the calls of the run over every item of the trees `find_directories` returns, or raises for a missing setting before any call |
| PredictedFormatter.Max | nachosv2/results_processing/results_processing_utils/predicted_formatter/predicted_formatter.py:31 | `max` of a non-empty row is one of its values and no value exceeds it |
| PredictedFormatter.ArgMax | nachosv2/results_processing/results_processing_utils/predicted_formatter/predicted_formatter.py:31 | `values.index(max(values))` lies in the row, holds the maximum, and every earlier entry is strictly smaller |
| PredictedFormatter.ArgMaxUnique | nachosv2/results_processing/results_processing_utils/predicted_formatter/predicted_formatter.py:31 | that index is the only position with those two properties |
| PredictedFormatter.TranslatePrefixSpec | nachosv2/results_processing/results_processing_utils/predicted_formatter/predicted_formatter.py:28-32 | translating the first n rows gives one first-maximum index per row, or fails at the first empty row |
| PredictedFormatter.TranslatePrefixStops | nachosv2/results_processing/results_processing_utils/predicted_formatter/predicted_formatter.py:28-32 | rows after an empty row change nothing |
| PredictedFormatter.TranslateFile | nachosv2/results_processing/results_processing_utils/predicted_formatter/predicted_formatter.py:22-35 | the row loop yields one index per row, each the first position of the row's maximum, or `ValueError` for an empty row |
| PredictedFormatter.TranslatedMaxima | nachosv2/results_processing/results_processing_utils/predicted_formatter/predicted_formatter.py:28-32 | a successful translation has one index per row, each holding the row maximum with every earlier entry smaller |
| PredictedFormatter.NewFilePath | nachosv2/results_processing/results_processing_utils/predicted_formatter/predicted_formatter.py:41 | the new path ends in `_index.csv` after a prefix of the old path |
| PredictedFormatter.NewFilePathDrops | nachosv2/results_processing/results_processing_utils/predicted_formatter/predicted_formatter.py:41 | a path of four or more characters loses exactly its last four |
| PredictedFormatter.NewFilePathCsv | nachosv2/results_processing/results_processing_utils/predicted_formatter/predicted_formatter.py:41 | `x.csv` becomes `x_index.csv` |
| PredictedFormatter.LinesSnoc | nachosv2/results_processing/results_processing_utils/predicted_formatter/predicted_formatter.py:45-46 | one more index adds its decimal rendering and a newline at the end |
| PredictedFormatter.LinesCount | nachosv2/results_processing/results_processing_utils/predicted_formatter/predicted_formatter.py:44-46 | the content has one newline per index |
| PredictedFormatter.ReadIndicesLines | nachosv2/results_processing/results_processing_utils/predicted_formatter/predicted_formatter.py:44-46 | reading the written content line by line gives back the indices |
| PredictedFormatter.WriteFile | nachosv2/results_processing/results_processing_utils/predicted_formatter/predicted_formatter.py:38-46 | writes to the new path the content built by the loop, which reads back as the indices and has one line per index |
| PredictedFormatter.FormatFromAppend | nachosv2/results_processing/results_processing_utils/predicted_formatter/predicted_formatter.py:61-68 | formatting two file lists is formatting the first, then the second |
| PredictedFormatter.FormatFromStopped | nachosv2/results_processing/results_processing_utils/predicted_formatter/predicted_formatter.py:61-68 | after an exception, later files change nothing |
| PredictedFormatter.WritesMatchStep | nachosv2/results_processing/results_processing_utils/predicted_formatter/predicted_formatter.py:63-68 | one more file keeps the per-write relation |
| PredictedFormatter.FormatRunWrites | nachosv2/results_processing/results_processing_utils/predicted_formatter/predicted_formatter.py:61-68 | one write per file, in nested order, each at the file's new path with its translated content, until the first file that fails |
| PredictedFormatter.FormatSubject | nachosv2/results_processing/results_processing_utils/predicted_formatter/predicted_formatter.py:63-68 | the innermost loop makes the writes of the run over that subject's files |
| PredictedFormatter.FormatModel | nachosv2/results_processing/results_processing_utils/predicted_formatter/predicted_formatter.py:62-68 | the middle loop makes the writes of the run over that model's files |
| PredictedFormatter.FormatAll | nachosv2/results_processing/results_processing_utils/predicted_formatter/predicted_formatter.py:49-68 | `main`'s nested loops make the writes of the run over every file |
| PredictedFormatter.FormatRunComplete | nachosv2/results_processing/results_processing_utils/predicted_formatter/predicted_formatter.py:61-68 | when no file has an empty row, every file is written once, in nested order |
| Common.AllItemsCount | src/results_processing/roc_curve/roc_curve_graphing.py:22-24 | the nested traversal visits as many files as the tree holds |
| Common.LookupAt | src/results_processing/roc_curve/roc_curve_graphing.py:53-54 | in a tree without repeated keys, `t[model][subject][item]` finds the file at that position |
| Common.FirstIndex | nachosv2/results_processing/results_processing_utils/predicted_formatter/predicted_formatter.py:31 | `list.index`: the first position holding the value, and none exactly when it is absent |
| Text.ParseNatToString | nachosv2/results_processing/results_processing_utils/predicted_formatter/predicted_formatter.py:46 | the decimal rendering of an index reads back as that index |
| Text.NatToStringInjective | scripts/training/training_multiprocessing/mpi_init.py:48 | different counts render differently |
| Text.IntToString | scripts/training/training_multiprocessing/mpi_init.py:24 | Python's `str` of an integer: a minus sign before the digits of a negative one |
| Text.JoinCount | scripts/training/training_multiprocessing/mpi_init.py:24 | joining parts free of the separator puts one separator between consecutive parts |
| Text.LastSegmentTail | src/results_processing/roc_curve/roc_curve_graphing.py:55 | `split('/')[-1]` is a tail free of `/`, either the whole string or the text after a `/` |
| Text.LastSegmentAfter | src/results_processing/roc_curve/roc_curve_graphing.py:55 | the last segment of `dir/name` is `name` when `name` has no `/` |
| Text.ReplaceAbsent | src/results_processing/roc_curve/roc_curve_graphing.py:55 | `replace` leaves a string without an occurrence unchanged |
| Text.ReplacePrefix | src/results_processing/roc_curve/roc_curve_graphing.py:55 | `replace` leaves alone a prefix before which no occurrence starts |

## Left out

- MPI transport: `send`, `recv` and `ANY_SOURCE` are not modelled as concurrency. The coordinator takes the requesting ranks as a sequence, and a worker takes its replies as a sequence. Timing files, the start time, `exit(-1)` and the message printing are not modelled either.
- TensorFlow device calls are not modelled: `list_physical_devices`, `set_visible_devices` and `set_memory_growth`. Only the index arithmetic is kept.
- MpiProcessing.GpuIndex: requires `n_gpus > 0`. The script has no check for zero. Outside dummy mode line 191 would divide by zero; in dummy mode `n_gpus = 0` divides by 1 at line 188 and leaves every worker idle, a case the model also excludes.
- MpiProcessing.PreExitedComplete: requires `n_proc` to be a multiple of `n_gpus + 1`. The layout comment at lines 232-238 assumes this; otherwise the floor-division list misses the last idle rank, as `PreExitedHangs` shows.
- MpiProcessing.PreExitedAreIdleRanks: requires `n_proc` to be a multiple of `n_gpus + 1`, for the same reason. `IdleRanksExact` holds without it.
- Collaborators whose code is not part of this model are function-valued parameters or are left out:
  - `generate_pairs`, `parse_mpi_training_configs` and `TrainingVariables`;
  - `get_list_of_epochs`, `check_unique_subjects`, `define_dimensions` and `read_metadata_csv`;
  - the path getter and `roc_curve.main`;
  - `get_other_result`, `get_newfilepath_from_predictions` and `determine_if_cv_loop`.
- Training itself (`subject_loop` in the scheduler, `training_loop` in the sequential driver) is a function-valued input that says whether a call returns or raises. What a raising call leaves behind besides its exception is not modelled.
- MpiProcessing.WorkerMain: requires the environment to hold no earlier failure, as the fresh environment a worker starts with does.
- MpiProcessing.CoordinatorMainCorrected: requires `n_gpus > 0` in dummy mode, which the corrected division and the idle-rank arithmetic need. The as-written `CoordinatorMain` has no requirement.
- TrainingSequential.RunTraining: the timing directory is given as its `pathlib` components. The rendering of the joined path and its normalisation (an absolute component, separators inside `output_path`) are not modelled.
- RocCurveGraphing.RunProgram: `find_directories` is a function-valued input of the data path. The path getter's file-system walk is not part of this model.
- The completion log is a map from (output path, job name) to a flag. `read_item_list_in_log` and `write_log_to_file`, with their file locking, are not part of this model.
- The completion log of the sequential driver is commented out in the source and is not modelled.
- The confusion matrix itself is not modelled: `sklearn.metrics.confusion_matrix`, the pandas frames with their MultiIndex, and `to_csv`. A written matrix is recorded as its output path only.
- Argument and file reading are not modelled: `argparse`, JSON loading, `read_json`, `get_config` and the check that the results path exists. The pandas CSV read is a `Reader` parameter that yields the rows.
- `ping` and `socket.gethostbyname` are inputs: a reachability function and the host address. The PrecisionTimer, the memory-leak check, `mkdir` and the timing file are not modelled.
- Row values are reals. NaN and float comparison are not modelled.
- RocCurveGraphing: `roc_curve.main` is assumed not to change the dictionary it receives, because its code is not part of this model. The setting values are carried as text.
- PredictedFormatter.NewFilePath: models Python's slice `[:len - 4]` for every length, including negative stops for paths shorter than four characters. It does not require four characters.
- `nachosv2/model_processing/models/resnet3D.py` is not modelled. It defines a neural network over torch tensors.
- Printing and colours are not modelled: `termcolor` and the progress messages of every script.

## Findings

| source | as written | input that shows it | evidently intended | confidence | as-written member | corrected member |
|---|---|---|---|---|---|---|
| scripts/training/training_multiprocessing/mpi_processing.py:240 | `n_not_used_ranks = n_proc/(n_gpus+1) - 1` uses true division, so the bound `n_not_used_ranks+1` passed to `range` at line 242 is a float and raises `TypeError` | `n_proc = 9`, `n_gpus = 2`, dummy mode: `9/3 - 1 == 2.0` | integer division, pre-exiting exactly the idle ranks (ranks 3 and 6 here), which `CoordinatorMainCorrected` serves from | not executed | MpiProcessing.PreExitedAsWrittenFails | MpiProcessing.IdleRanksExact |
| scripts/training/training_multiprocessing/mpi_processing.py:240 | the count `n_proc/(n_gpus+1) - 1`, even with the division floored, leaves out the last idle rank when `n_proc` is not a multiple of `n_gpus + 1`; that rank never sends a request (line 285), so rank 0 never leaves its loop | `n_proc = 10`, `n_gpus = 2`, dummy mode: `10 // 3 - 1 == 2` pre-exits ranks 3 and 6, but rank 9 is idle too | `(n_proc-1) // (n_gpus+1)` ranks, every idle rank, after which the loop breaks once every training rank has asked | not executed | MpiProcessing.PreExitedHangs | MpiProcessing.IdleRanksServeTerminates |
