/** `convert_wav_to_flac.py`: converts every `.wav` file found under the
    input directory to `.flac` in the output directory, trashing each
    original whose conversion succeeded. A failing `find` is reported and
    the run converts nothing; output that cannot be decoded is not caught
    and ends the run. */
module ConvertWavToFlac {
  import opened Wrappers
  import opened Text
  import opened Storage
  import opened BatchConvert

  const TargetExtension := ".flac"

  /** `find_wavs`: the names read from what `find` printed, none when it
      failed (`CalledProcessError` is caught), or `None` when its output
      could not be decoded (`UnicodeDecodeError` is not caught). */
  function FindWavs(found: FindResult): (r: Option<seq<string>>)
    ensures r.None? <==> found.Undecodable?
    ensures found.FindFailed? ==> r == Some([])
    ensures found.Printed? ==> r == Some(FoundNames(found.output))
    ensures r.Some? ==> forall k :: 0 <= k < |r.value| ==> r.value[k] != ""
  {
    match found
    case Printed(output) => Some(FoundNames(output))
    case Undecodable => None
    case FindFailed(_) => Some([])
  }

  /** `find_wavs` yields back exactly the names `find` printed, provided
      none holds a carriage return (text mode reads one as "\n"). */
  lemma FindWavsYieldsPrinted(names: seq<string>)
    requires forall k :: 0 <= k < |names| ==> names[k] != "" && '\0' !in names[k] && '\r' !in names[k]
    ensures FindWavs(Printed(Print0(names))) == Some(names)
  {
    FoundNamesOfPrint0(names);
    TranslatedNamesWithoutReturn(names);
  }

  datatype RunResult = Aborted(setup: Setup) | DecodeCrashed | Ran(outcomes: seq<Outcome>)

  /** `main`: both answers are stripped; after setup, every found file is
      handed to the worker in order, item `k` seeing transcoder run
      `transcoder(k)` and clock reading `clock(k)`. Output that cannot be
      decoded ends the run after setup, before any conversion. */
  method Run(disk: FileSystem, inputAnswer: string, outputAnswer: string, found: FindResult,
             trashDir: string, transcoder: nat -> TranscoderRun, clock: nat -> string)
    returns (result: RunResult)
    modifies disk
    ensures var prep := Prepared(old(disk.entries), Strip(inputAnswer), Strip(outputAnswer));
            && (prep.setup != Ready ==> result == Aborted(prep.setup) && disk.entries == prep.fs)
            && (prep.setup == Ready && found.Undecodable? ==> result == DecodeCrashed && disk.entries == prep.fs)
            && (prep.setup == Ready && !found.Undecodable? ==>
                  var names := FindWavs(found).value;
                  && result.Ran?
                  && result.outcomes == Outcomes(prep.fs, names, |names|, Strip(outputAnswer),
                                                 TargetExtension, trashDir, transcoder, clock)
                  && disk.entries == ConvertAll(prep.fs, names, |names|, Strip(outputAnswer),
                                                TargetExtension, trashDir, transcoder, clock))
  {
    var inputDir := Strip(inputAnswer);
    var outputDir := Strip(outputAnswer);
    var setup := Prepare(disk, inputDir, outputDir);
    if setup != Ready {
      return Aborted(setup);
    }
    var names := FindWavs(found);
    if names.None? {
      return DecodeCrashed;
    }
    var outcomes := ConvertEach(disk, names.value, outputDir, TargetExtension, trashDir, transcoder, clock);
    result := Ran(outcomes);
  }
}
