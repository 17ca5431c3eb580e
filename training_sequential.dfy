/** The argument checks of the training launcher: the device count against
    the parallel flag, the loop type, and the folder name derived from it. */
module TrainingSequential {
  import opened Common

  /** The two `ValueError`s the launcher raises. */
  datatype LaunchError = TooManyDevices | InvalidLoop(loop: string)

  /** What the launcher goes on with once its checks pass: the flag passed
      to `execute_training` and the folder the timing file goes under, as
      the components a `pathlib` path is joined from with `/`. */
  datatype LaunchPlan = LaunchPlan(isCvLoop: bool, loopFolder: string, timingDirectory: seq<string>)

  const CrossValidation: string := "cross-validation"
  const CrossTesting: string := "cross-testing"

  /** `loop_folder`: "CT" for cross-testing, "CV" for cross-validation. */
  function LoopFolder(isCvLoop: bool): (r: string)
    ensures r == "CT" <==> !isCvLoop
    ensures r == "CV" <==> isCvLoop
  {
    if !isCvLoop then "CT" else "CV"
  }

  /** `run_training` up to the point where training starts, together with
      the timing directory `output_path / loop_folder / "training_timings"`. */
  function RunTraining(parallel: bool, devices: seq<string>, loop: string, outputPath: string)
    : (r: Result<LaunchPlan, LaunchError>)
    // The device check comes first: without parallelisation several devices
    // are refused whatever the loop type.
    ensures r == Err(TooManyDevices) <==> !parallel && |devices| > 1
    // With parallelisation any number of devices passes that check.
    ensures parallel ==> r != Err(TooManyDevices)
    // A loop type other than the two known ones is refused next.
    ensures r.Err? && r.error.InvalidLoop? <==>
      (parallel || |devices| <= 1) && loop != CrossValidation && loop != CrossTesting
    ensures r.Err? && r.error.InvalidLoop? ==> r.error.loop == loop
    // Otherwise the loop type decides the flag and the folder.
    ensures r.Ok? <==> (parallel || |devices| <= 1) && (loop == CrossValidation || loop == CrossTesting)
    ensures r.Ok? ==> (r.value.isCvLoop <==> loop == CrossValidation)
    ensures r.Ok? ==> (r.value.loopFolder == "CT" <==> loop == CrossTesting)
    ensures r.Ok? ==> r.value.timingDirectory == [outputPath, r.value.loopFolder, "training_timings"]
  {
    if !parallel && |devices| > 1 then Err(TooManyDevices)
    else if loop != CrossValidation && loop != CrossTesting then Err(InvalidLoop(loop))
    else
      var isCvLoop := loop != CrossTesting;
      var folder := LoopFolder(isCvLoop);
      Ok(LaunchPlan(isCvLoop, folder, [outputPath, folder, "training_timings"]))
  }
}
