/** `convert_flac_to_wav.py`: converts every `.flac` file found under the
    input directory to `.wav` in the output directory, trashing each
    original whose conversion succeeded. Unlike the `.wav` converter, a
    failing `find` is not caught: the error, like output that cannot be
    decoded, ends `main` once the output directory has been set up, before
    any file is converted. */
module ConvertFlacToWav {
  import opened Wrappers
  import opened Text
  import opened Storage
  import opened BatchConvert

  const TargetExtension := ".wav"

  /** What `find_flacs` raises: `CalledProcessError` with `find`'s exit
      code, or `UnicodeDecodeError`. */
  datatype FindCrash = FindExited(code: int) | OutputUndecodable

  /** `find_flacs`: the names read from what `find` printed, or the error
      it raises. */
  function FindFlacs(found: FindResult): (r: Result<seq<string>, FindCrash>)
    ensures r.Ok? <==> found.Printed?
    ensures r.Ok? ==> r.value == FoundNames(found.output)
    ensures found.FindFailed? ==> r == Err(FindExited(found.code))
    ensures found.Undecodable? ==> r == Err(OutputUndecodable)
    ensures r.Ok? ==> forall k :: 0 <= k < |r.value| ==> r.value[k] != ""
  {
    match found
    case Printed(output) => Ok(FoundNames(output))
    case Undecodable => Err(OutputUndecodable)
    case FindFailed(code) => Err(FindExited(code))
  }

  /** `find_flacs` yields back exactly the names `find` printed, provided
      none holds a carriage return (text mode reads one as "\n"). */
  lemma FindFlacsYieldsPrinted(names: seq<string>)
    requires forall k :: 0 <= k < |names| ==> names[k] != "" && '\0' !in names[k] && '\r' !in names[k]
    ensures FindFlacs(Printed(Print0(names))) == Ok(names)
  {
    FoundNamesOfPrint0(names);
    TranslatedNamesWithoutReturn(names);
  }

  datatype RunResult = Aborted(setup: Setup) | FindCrashed(crash: FindCrash) | Ran(outcomes: seq<Outcome>)

  /** `main`: as for the `.wav` converter, except that a failing `find`
      also ends the run, with the output directory already created. */
  method Run(disk: FileSystem, inputAnswer: string, outputAnswer: string, found: FindResult,
             trashDir: string, transcoder: nat -> TranscoderRun, clock: nat -> string)
    returns (result: RunResult)
    modifies disk
    ensures var prep := Prepared(old(disk.entries), Strip(inputAnswer), Strip(outputAnswer));
            && (prep.setup != Ready ==> result == Aborted(prep.setup) && disk.entries == prep.fs)
            && (prep.setup == Ready && !found.Printed? ==>
                  result == FindCrashed(FindFlacs(found).error) && disk.entries == prep.fs)
            && (prep.setup == Ready && found.Printed? ==>
                  var names := FindFlacs(found).value;
                  && result.Ran?
                  && result.outcomes == Outcomes(prep.fs, names, |names|, Strip(outputAnswer),
                                                 TargetExtension, trashDir, transcoder, clock)
                  && disk.entries == ConvertAll(prep.fs, names, |names|, Strip(outputAnswer),
                                                TargetExtension, trashDir, transcoder, clock))
  {
    var inputDir := Strip(inputAnswer);
    var outputDir := Strip(outputAnswer);
    var setup := Prepare(disk, inputDir, outputDir);
    if setup != Ready {
      return Aborted(setup);
    }
    var names := FindFlacs(found);
    if names.Err? {
      return FindCrashed(names.error);
    }
    var outcomes := ConvertEach(disk, names.value, outputDir, TargetExtension, trashDir, transcoder, clock);
    result := Ran(outcomes);
  }
}
