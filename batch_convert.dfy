/** The conversion worker shared by the two audio converters: read the
    file names `find -print0` printed, derive each destination name, skip
    files whose destination exists, run the transcoder, and on success
    move the original into the trash directory, renaming it with a
    timestamp when the trash already holds that name. The converters
    differ only in the target extension and in how a failing `find` is
    handled. */
module BatchConvert {
  import opened Wrappers
  import opened Text
  import opened Paths
  import opened Storage

  // ---------------------------------------------------------------------
  // Enumerating the work items
  // ---------------------------------------------------------------------

  /** What `subprocess.check_output` on `find DIR -type f -iname PATTERN
      -print0`, in text mode, gave: the standard output decoded as text
      (before newlines are translated), output that is not valid in the
      locale's encoding (`UnicodeDecodeError`), or the non-zero code `find`
      exited with (`CalledProcessError`). */
  datatype FindResult = Printed(output: string) | Undecodable | FindFailed(code: int)

  /** The pieces that are not empty, in order. */
  function NonEmpty(pieces: seq<string>): (r: seq<string>)
    ensures |r| <= |pieces|
    ensures forall k :: 0 <= k < |r| ==> r[k] != "" && r[k] in pieces
  {
    if pieces == [] then []
    else if pieces[0] == "" then NonEmpty(pieces[1..])
    else [pieces[0]] + NonEmpty(pieces[1..])
  }

  /** The non-empty NUL-separated segments of a text, in order. */
  function NulSeparated(text: string): (r: seq<string>)
    ensures forall k :: 0 <= k < |r| ==> r[k] != "" && '\0' !in r[k]
  {
    SplitPiecesExclude(text, '\0');
    NonEmpty(Split(text, "\0"))
  }

  /** The names yielded from `find`'s output: the text with its newlines
      translated (text mode), split at NULs, empty segments dropped. */
  function FoundNames(output: string): (r: seq<string>)
    ensures forall k :: 0 <= k < |r| ==> r[k] != "" && '\0' !in r[k]
  {
    NulSeparated(TranslateNewlines(output))
  }

  /** The output format of `-print0`: every name followed by a NUL. */
  function Print0(names: seq<string>): string {
    if names == [] then "" else names[0] + "\0" + Print0(names[1..])
  }

  /** Splitting `-print0` output recovers exactly the names printed. */
  lemma {:induction false} NulSeparatedOfPrint0(names: seq<string>)
    requires forall k :: 0 <= k < |names| ==> names[k] != "" && '\0' !in names[k]
    ensures NulSeparated(Print0(names)) == names
  {
    if names == [] {
      assert Split("", "\0") == [""];
    } else {
      var rest := Print0(names[1..]);
      assert Print0(names) == names[0] + ['\0'] + rest;
      SplitAtFirst(names[0], '\0', rest);
      NulSeparatedOfPrint0(names[1..]);
    }
  }

  /** Each name as text mode reads it. */
  function TranslatedNames(names: seq<string>): seq<string> {
    seq(|names|, k requires 0 <= k < |names| => TranslateNewlines(names[k]))
  }

  /** Translating `-print0` output translates each name on its own: a NUL
      never takes part in a "\r\n". */
  lemma {:induction false} TranslatePrint0(names: seq<string>)
    ensures TranslateNewlines(Print0(names)) == Print0(TranslatedNames(names))
  {
    if names != [] {
      var rest := Print0(names[1..]);
      assert Print0(names) == (names[0] + "\0") + rest;
      TranslateAppend(names[0] + "\0", rest);
      TranslateAppend(names[0], "\0");
      TranslateWithoutReturn("\0");
      TranslatePrint0(names[1..]);
      assert TranslatedNames(names)[1..] == TranslatedNames(names[1..]);
    }
  }

  /** `find`'s output is read back as the names it printed, each with its
      carriage returns turned into newlines. */
  lemma FoundNamesOfPrint0(names: seq<string>)
    requires forall k :: 0 <= k < |names| ==> names[k] != "" && '\0' !in names[k]
    ensures FoundNames(Print0(names)) == TranslatedNames(names)
  {
    TranslatePrint0(names);
    forall k | 0 <= k < |names|
      ensures TranslatedNames(names)[k] != "" && '\0' !in TranslatedNames(names)[k]
    {
      TranslateKeepsNonEmpty(names[k]);
      TranslateAddsOnlyNewlines(names[k], '\0');
    }
    NulSeparatedOfPrint0(TranslatedNames(names));
  }

  /** Names without a carriage return are read back exactly. */
  lemma TranslatedNamesWithoutReturn(names: seq<string>)
    requires forall k :: 0 <= k < |names| ==> '\r' !in names[k]
    ensures TranslatedNames(names) == names
  {
    forall k | 0 <= k < |names|
      ensures TranslatedNames(names)[k] == names[k]
    {
      TranslateWithoutReturn(names[k]);
    }
  }

  /** A file whose name holds a carriage return is reported under another
      name: the one with that "\r" read as "\n". */
  lemma ReturnInNameIsMisread(name: string)
    requires name != "" && '\0' !in name && '\r' in name
    ensures FoundNames(Print0([name])) != [name]
  {
    FoundNamesOfPrint0([name]);
    TranslateRemovesReturns(name);
    assert FoundNames(Print0([name]))[0] == TranslateNewlines(name);
  }

  // ---------------------------------------------------------------------
  // Naming
  // ---------------------------------------------------------------------

  /** The converted file: in the output directory, named by the original's
      basename up to its last dot, plus the target extension. */
  function DestinationPath(original: string, outputDir: string, targetExt: string): (r: string)
    ensures targetExt != [] && targetExt[0] == '.' && '/' !in targetExt ==>
              StartsWith(r, outputDir) && EndsWith(r, targetExt)
  {
    var stem := StemBeforeLastDot(Basename(original));
    assert targetExt != [] && targetExt[0] == '.' && '/' !in targetExt ==>
             StartsWith(JoinPath(outputDir, stem + targetExt), outputDir)
             && EndsWith(JoinPath(outputDir, stem + targetExt), targetExt) by {
      if targetExt != [] && targetExt[0] == '.' && '/' !in targetExt {
        StemHasNoSlash(Basename(original));
        JoinedName(outputDir, stem, targetExt);
      }
    }
    JoinPath(outputDir, stem + targetExt)
  }

  /** The destination sits directly in the output directory and carries
      the target extension. */
  lemma DestinationInOutputDir(original: string, outputDir: string, targetExt: string)
    requires targetExt != [] && targetExt[0] == '.' && '/' !in targetExt
    ensures var dest := DestinationPath(original, outputDir, targetExt);
            && EndsWith(dest, targetExt)
            && StartsWith(dest, outputDir)
            && Basename(dest) == StemBeforeLastDot(Basename(original)) + targetExt
  {
    StemHasNoSlash(Basename(original));
    JoinedName(outputDir, StemBeforeLastDot(Basename(original)), targetExt);
  }

  /** The name a taken trash name is replaced by: the splitext root of the
      basename, " (" + timestamp + ")", then its extension. */
  function StampedName(base: string, timestamp: string): (r: string)
    requires '/' !in base
    ensures |r| > |base| && r[0] != '/'
    ensures '/' !in timestamp ==> '/' !in r
  {
    var (root, ext) := SplitExt(base);
    assert root + ext == base;
    assert forall i :: 0 <= i < |root| ==> root[i] == base[i];
    assert root != [] ==> root[0] in base;
    root + " (" + timestamp + ")" + ext
  }

  /** Where `trash_file` moves the original: the trash directory plus its
      basename, or the stamped name when the basename is taken there. */
  function TrashPath(fs: Tree, original: string, trashDir: string, timestamp: string): (r: string)
    ensures StartsWith(r, trashDir)
  {
    var base := Basename(original);
    var plain := JoinPath(trashDir, base);
    if plain in fs then
      var stamped := JoinPath(trashDir, StampedName(base, timestamp));
      assert StartsWith(stamped, trashDir) by {
        JoinStaysUnder(trashDir, StampedName(base, timestamp));
      }
      stamped
    else
      assert StartsWith(plain, trashDir) by {
        assert base != [] ==> base[0] in base;
        JoinStaysUnder(trashDir, base);
      }
      plain
  }

  /** The trash name keeps the basename when it is free; when it is taken
      it is a different name, whose basename is the stamped one. */
  lemma TrashPathAvoidsTakenName(fs: Tree, original: string, trashDir: string, timestamp: string)
    requires '/' !in timestamp
    ensures var base := Basename(original);
            var plain := JoinPath(trashDir, base);
            var t := TrashPath(fs, original, trashDir, timestamp);
            && Basename(plain) == base
            && (plain !in fs ==> t == plain)
            && (plain in fs ==> t != plain && Basename(t) == StampedName(base, timestamp))
  {
    var base := Basename(original);
    BasenameOfJoin(trashDir, base);
    BasenameOfJoin(trashDir, StampedName(base, timestamp));
  }

  // ---------------------------------------------------------------------
  // The per-file worker
  // ---------------------------------------------------------------------

  /** What the transcoder did for one file: its exit code, and the size of
      the file it left at the destination, if it left one (a failing run
      may leave a partial file behind). */
  datatype TranscoderRun = TranscoderRun(exitCode: int, output: Option<nat>)

  /** The filesystem with whatever the transcoder left at `dest`. */
  function Written(fs: Tree, dest: string, run: TranscoderRun): Tree {
    if run.output.Some? then fs[dest := File(run.output.value)] else fs
  }

  datatype Outcome =
    | Skipped                        // the destination already existed
    | Converted                      // converted, original moved to the trash
    | TrashFailed(error: MoveError)  // converted, but moving the original raised
    | ConversionFailed(code: int)    // the transcoder failed; original left alone

  datatype Step = Step(fs: Tree, outcome: Outcome)

  /** `trash_file`: the original moved to its trash name. Only an existing
      file is moved, it lands under the trash directory, and no directory
      is lost. */
  function Trashed(fs: Tree, original: string, trashDir: string, timestamp: string): (r: Result<Tree, MoveError>)
    ensures r.Ok? ==> IsFile(fs, original) && DirsKept(fs, r.value)
    ensures r.Ok? ==> StartsWith(MoveTarget(fs, original, TrashPath(fs, original, trashDir, timestamp)), trashDir)
  {
    var trash := TrashPath(fs, original, trashDir, timestamp);
    var r := Moved(fs, original, trash);
    if r.Ok? then
      MovedKeepsDirectories(fs, original, trash);
      assert StartsWith(MoveTarget(fs, original, trash), trashDir) by {
        if IsDirOrRoot(fs, trash) {
          var base := Basename(original);
          assert base != [] ==> base[0] in base;
          JoinStaysUnder(trash, base);
          StartsWithTransitive(JoinPath(trash, base), trash, trashDir);
        }
      }
      r
    else r
  }

  /** `convert` for one file, as a state transition of the filesystem:
      discovered, then skipped, converted with the original trashed, or
      failed with the original left in place. */
  function ConvertStep(fs: Tree, original: string, outputDir: string, targetExt: string,
                       trashDir: string, run: TranscoderRun, timestamp: string): (r: Step)
    ensures DirsKept(fs, r.fs)
    ensures r.outcome != Converted && IsFile(fs, original) && original != DestinationPath(original, outputDir, targetExt)
            ==> original in r.fs && r.fs[original] == fs[original]
  {
    var dest := DestinationPath(original, outputDir, targetExt);
    if dest in fs then Step(fs, Skipped)
    else
      var written := Written(fs, dest, run);
      assert DirsKept(fs, written) by {
        if run.output.Some? {
          NewFileKeepsDirectories(fs, dest, File(run.output.value));
        }
      }
      if run.exitCode != 0 then Step(written, ConversionFailed(run.exitCode))
      else match Trashed(written, original, trashDir, timestamp)
      case Ok(after) =>
        assert DirsKept(fs, after) by {
          DirsKeptTransitive(fs, written, after);
        }
        Step(after, Converted)
      case Err(e) => Step(written, TrashFailed(e))
  }

  /** An existing destination means nothing is touched; a failing
      transcoder changes nothing but the partial file it may leave at the
      destination. */
  lemma SkippedOrFailed(fs: Tree, original: string, outputDir: string, targetExt: string,
                        trashDir: string, run: TranscoderRun, timestamp: string)
    ensures var dest := DestinationPath(original, outputDir, targetExt);
            var r := ConvertStep(fs, original, outputDir, targetExt, trashDir, run, timestamp);
            && (r.outcome == Skipped <==> dest in fs)
            && (r.outcome.Skipped? ==> r.fs == fs)
            && (r.outcome.ConversionFailed? <==> dest !in fs && run.exitCode != 0)
            && (r.outcome.ConversionFailed? ==> r.outcome.code == run.exitCode)
            && (r.outcome.ConversionFailed? && run.output.None? ==> r.fs == fs)
            && (r.outcome.ConversionFailed? && run.output.Some? ==> r.fs == fs[dest := File(run.output.value)])
  {
    var dest := DestinationPath(original, outputDir, targetExt);
    var r := ConvertStep(fs, original, outputDir, targetExt, trashDir, run, timestamp);
    if dest in fs {
      assert r == Step(fs, Skipped);
    } else if run.exitCode != 0 {
      assert r == Step(Written(fs, dest, run), ConversionFailed(run.exitCode));
    } else {
      assert r.outcome == Converted || r.outcome.TrashFailed?;
    }
  }

  /** A failed run that left a partial file strands the original: every
      later run finds the destination and skips, so the file is never
      converted again and its original is never trashed. */
  lemma PartialOutputStrandsOriginal(fs: Tree, original: string, outputDir: string, targetExt: string,
                                     trashDir: string, run: TranscoderRun, timestamp: string,
                                     run2: TranscoderRun, timestamp2: string)
    requires ConvertStep(fs, original, outputDir, targetExt, trashDir, run, timestamp).outcome.ConversionFailed?
    requires run.output.Some?
    requires IsFile(fs, original) && original != DestinationPath(original, outputDir, targetExt)
    ensures var r := ConvertStep(fs, original, outputDir, targetExt, trashDir, run, timestamp);
            && ConvertStep(r.fs, original, outputDir, targetExt, trashDir, run2, timestamp2) == Step(r.fs, Skipped)
            && IsFile(r.fs, original) && r.fs[original] == fs[original]
  {
  }

  /** A conversion reported as done found no destination, saw the
      transcoder succeed, wrote the destination and then trashed the
      original (see `TrashedOriginal` for what trashing leaves). */
  lemma SuccessMovesOriginalToTrash(fs: Tree, original: string, outputDir: string, targetExt: string,
                                    trashDir: string, run: TranscoderRun, timestamp: string)
    requires ConvertStep(fs, original, outputDir, targetExt, trashDir, run, timestamp).outcome == Converted
    ensures var dest := DestinationPath(original, outputDir, targetExt);
            var written := Written(fs, dest, run);
            var r := ConvertStep(fs, original, outputDir, targetExt, trashDir, run, timestamp);
            && dest !in fs && run.exitCode == 0
            && Trashed(written, original, trashDir, timestamp).Ok?
            && r.fs == Trashed(written, original, trashDir, timestamp).value
  {
  }

  /** What a successful `trash_file` did: the original's content is under
      its trash name, the original is gone, and a given other entry stays. */
  lemma TrashedOriginal(fs: Tree, original: string, trashDir: string, timestamp: string, other: string)
    requires Trashed(fs, original, trashDir, timestamp).Ok?
    requires other in fs && other != original
    ensures var t := MoveTarget(fs, original, TrashPath(fs, original, trashDir, timestamp));
            var after := Trashed(fs, original, trashDir, timestamp).value;
            && t in after && after[t] == fs[original]
            && (t != original ==> original !in after)
            && (t != other ==> other in after)
  {
    var trash := TrashPath(fs, original, trashDir, timestamp);
    if MoveTarget(fs, original, trash) != other {
      MovedKeeps(fs, original, trash, other);
    }
  }

  /** Running the worker again on a file it converted is a no-op when the
      transcoder left its output: the destination now exists, so the second
      run skips. */
  lemma RerunSkips(fs: Tree, original: string, outputDir: string, targetExt: string,
                   trashDir: string, run: TranscoderRun, timestamp: string,
                   run2: TranscoderRun, timestamp2: string)
    requires var r := ConvertStep(fs, original, outputDir, targetExt, trashDir, run, timestamp);
             r.outcome == Converted || r.outcome.TrashFailed?
    requires run.output.Some?
    requires original != DestinationPath(original, outputDir, targetExt)
    requires var dest := DestinationPath(original, outputDir, targetExt);
             var written := Written(fs, dest, run);
             MoveTarget(written, original, TrashPath(written, original, trashDir, timestamp)) != dest
    ensures var r := ConvertStep(fs, original, outputDir, targetExt, trashDir, run, timestamp);
            ConvertStep(r.fs, original, outputDir, targetExt, trashDir, run2, timestamp2) == Step(r.fs, Skipped)
  {
    var dest := DestinationPath(original, outputDir, targetExt);
    var r := ConvertStep(fs, original, outputDir, targetExt, trashDir, run, timestamp);
    assert dest !in fs && run.exitCode == 0;
    var written := Written(fs, dest, run);
    assert dest in written && original != dest;
    if r.outcome == Converted {
      assert r.fs == Trashed(written, original, trashDir, timestamp).value;
      MovedKeeps(written, original, TrashPath(written, original, trashDir, timestamp), dest);
    } else {
      assert r.fs == written;
    }
    assert dest in r.fs;
  }

  /** Two files with the same basename trashed one after the other both end
      up in the trash, under different names. */
  lemma SameNameTrashedTwice(fs: Tree, a: string, b: string, trashDir: string, ts1: string, ts2: string)
    requires a != b && Basename(a) == Basename(b) && '/' !in ts2
    requires !IsDirOrRoot(fs, TrashPath(fs, a, trashDir, ts1))
    requires Trashed(fs, a, trashDir, ts1).Ok?
    requires var fs1 := Trashed(fs, a, trashDir, ts1).value;
             !IsDirOrRoot(fs1, TrashPath(fs1, b, trashDir, ts2)) && Trashed(fs1, b, trashDir, ts2).Ok?
    requires JoinPath(trashDir, Basename(a)) !in fs && b != JoinPath(trashDir, Basename(a))
    ensures var fs1 := Trashed(fs, a, trashDir, ts1).value;
            var fs2 := Trashed(fs1, b, trashDir, ts2).value;
            var first := TrashPath(fs, a, trashDir, ts1);
            var second := TrashPath(fs1, b, trashDir, ts2);
            && first != second
            && first in fs2 && fs2[first] == fs[a]
            && second in fs2 && fs2[second] == fs1[b]
  {
    var fs1 := Trashed(fs, a, trashDir, ts1).value;
    var first := TrashPath(fs, a, trashDir, ts1);
    assert first == JoinPath(trashDir, Basename(a));
    assert first in fs1 && fs1[first] == fs[a];
    TrashPathAvoidsTakenName(fs1, b, trashDir, ts2);
    var second := TrashPath(fs1, b, trashDir, ts2);
    assert second != first;
  }

  /** Different timestamps give different stamped names. */
  lemma StampedNamesDiffer(base: string, ts1: string, ts2: string)
    requires '/' !in base && ts1 != ts2
    ensures StampedName(base, ts1) != StampedName(base, ts2)
  {
    var (root, ext) := SplitExt(base);
    var n1, n2 := StampedName(base, ts1), StampedName(base, ts2);
    var k := |root| + 2;
    assert n1[k..k + |ts1|] == ts1 && n1[k + |ts1|] == ')';
    assert n2[k..k + |ts2|] == ts2 && n2[k + |ts2|] == ')';
    if n1 == n2 && |ts1| == |ts2| {
      assert false;
    }
  }

  /** Two files with the same basename trashed one after the other when
      that name is already taken in the trash: both are stamped, and two
      different clock readings keep them apart. */
  lemma SameNameStampedTwice(fs: Tree, a: string, b: string, trashDir: string, ts1: string, ts2: string)
    requires a != b && Basename(a) == Basename(b) && '/' !in ts1 && '/' !in ts2 && ts1 != ts2
    requires JoinPath(trashDir, Basename(a)) in fs && a != JoinPath(trashDir, Basename(a))
    requires !IsDirOrRoot(fs, TrashPath(fs, a, trashDir, ts1)) && Trashed(fs, a, trashDir, ts1).Ok?
    requires var fs1 := Trashed(fs, a, trashDir, ts1).value;
             !IsDirOrRoot(fs1, TrashPath(fs1, b, trashDir, ts2)) && Trashed(fs1, b, trashDir, ts2).Ok?
    requires b != TrashPath(fs, a, trashDir, ts1)
    ensures var fs1 := Trashed(fs, a, trashDir, ts1).value;
            var fs2 := Trashed(fs1, b, trashDir, ts2).value;
            var first := TrashPath(fs, a, trashDir, ts1);
            var second := TrashPath(fs1, b, trashDir, ts2);
            && first != second
            && first in fs2 && fs2[first] == fs[a]
            && second in fs2 && fs2[second] == fs1[b]
  {
    var base := Basename(a);
    var plain := JoinPath(trashDir, base);
    var fs1 := Trashed(fs, a, trashDir, ts1).value;
    var first := TrashPath(fs, a, trashDir, ts1);
    assert first == JoinPath(trashDir, StampedName(base, ts1) ) && first != plain by {
      TrashPathAvoidsTakenName(fs, a, trashDir, ts1);
    }
    assert first in fs1 && fs1[first] == fs[a];
    assert plain in fs1 by {
      MovedKeeps(fs, a, first, plain);
    }
    var second := TrashPath(fs1, b, trashDir, ts2);
    assert second == JoinPath(trashDir, StampedName(base, ts2));
    assert first != second by {
      StampedNamesDiffer(base, ts1, ts2);
      BasenameOfJoin(trashDir, StampedName(base, ts1));
      BasenameOfJoin(trashDir, StampedName(base, ts2));
    }
  }

  /** `trash_file` without a trash directory (`~/.Trash` missing, so no
      entry under it either): `shutil.move` raises. */
  lemma MissingTrashRefusesMove(fs: Tree, original: string, trashRoot: string, timestamp: string)
    requires trashRoot != [] && trashRoot[|trashRoot| - 1] != '/' && !IsDir(fs, trashRoot)
    requires JoinPath(trashRoot + "/", Basename(original)) !in fs
    requires IsFile(fs, original)
    ensures Trashed(fs, original, trashRoot + "/", timestamp) == Err(ParentMissing)
  {
    var trashDir := trashRoot + "/";
    var plain := JoinPath(trashDir, Basename(original));
    assert Dirname(plain) == trashRoot && !AllSlashes(trashRoot) by {
      DirnameUnderDirectory(trashRoot, Basename(original));
    }
    assert TrashPath(fs, original, trashDir, timestamp) == plain;
  }

  /** Without a trash directory a successful conversion cannot trash its
      original: the converted file stays and so does the original. */
  lemma MissingTrashKeepsOriginal(fs: Tree, original: string, outputDir: string, targetExt: string,
                                  trashRoot: string, run: TranscoderRun, timestamp: string)
    requires trashRoot != [] && trashRoot[|trashRoot| - 1] != '/' && !IsDir(fs, trashRoot)
    requires JoinPath(trashRoot + "/", Basename(original)) !in fs
    requires var dest := DestinationPath(original, outputDir, targetExt);
             && dest !in fs && dest != JoinPath(trashRoot + "/", Basename(original))
             && run.exitCode == 0 && run.output.Some? && IsFile(fs, original)
    ensures var dest := DestinationPath(original, outputDir, targetExt);
            var r := ConvertStep(fs, original, outputDir, targetExt, trashRoot + "/", run, timestamp);
            && r == Step(fs[dest := File(run.output.value)], TrashFailed(ParentMissing))
            && IsFile(r.fs, original) && IsFile(r.fs, dest)
  {
    var dest := DestinationPath(original, outputDir, targetExt);
    var written := Written(fs, dest, run);
    assert Trashed(written, original, trashRoot + "/", timestamp) == Err(ParentMissing) by {
      MissingTrashRefusesMove(written, original, trashRoot, timestamp);
    }
  }

  // ---------------------------------------------------------------------
  // Setting up and running a batch
  // ---------------------------------------------------------------------

  /** How `main` got on before the work started. */
  datatype Setup = InputMissing | OutputUncreatable | Ready

  datatype Preparation = Preparation(setup: Setup, fs: Tree)

  /** `main` up to the work: a missing input directory ends the run; a
      missing output directory is made with `os.makedirs` (parents
      included), whose failure ends the run; an existing output entry is
      used as it is. */
  function Prepared(fs: Tree, inputDir: string, outputDir: string): (r: Preparation)
    ensures r.setup == InputMissing <==> !IsDirOrRoot(fs, inputDir)
    ensures r.setup == InputMissing || Exists(fs, outputDir) ==> r.fs == fs
    ensures r.setup == Ready <==>
              IsDirOrRoot(fs, inputDir) && (Exists(fs, outputDir) || MadeTree(fs, outputDir, false).error.None?)
    ensures Grows(fs, r.fs, outputDir)
    ensures r.setup == Ready && !Exists(fs, outputDir) ==> IsDirOrRoot(r.fs, outputDir)
  {
    if !IsDirOrRoot(fs, inputDir) then Preparation(InputMissing, fs)
    else if Exists(fs, outputDir) then Preparation(Ready, fs)
    else
      var made := MadeTree(fs, outputDir, false);
      Preparation(if made.error.None? then Ready else OutputUncreatable, made.fs)
  }

  /** An output directory to be made in place of a regular file's child
      cannot be made: the run ends with the filesystem untouched. */
  lemma PreparedUnderFile(fs: Tree, inputDir: string, outputDir: string)
    requires IsDirOrRoot(fs, inputDir) && !Exists(fs, outputDir)
    requires SplitPath(outputDir).1 != [] && SplitPath(outputDir).0 != [] && IsFile(fs, SplitPath(outputDir).0)
    ensures Prepared(fs, inputDir, outputDir) == Preparation(OutputUncreatable, fs)
  {
    MadeTreeUnderFile(fs, outputDir, false);
  }

  /** An empty output answer cannot be made (`os.makedirs("")` raises). */
  lemma PreparedEmptyOutput(fs: Tree, inputDir: string, outputDir: string)
    requires IsDirOrRoot(fs, inputDir) && outputDir == [] && outputDir !in fs
    ensures Prepared(fs, inputDir, outputDir) == Preparation(OutputUncreatable, fs)
  {
    MadeTreeEmptyPath(fs, outputDir, false);
  }

  /** A fresh output path is made with every missing parent. */
  lemma PreparedMakesMissingParents(fs: Tree, inputDir: string, outputDir: string)
    requires IsDirOrRoot(fs, inputDir) && !AllSlashes(outputDir) && NothingOnPath(fs, outputDir)
    ensures Prepared(fs, inputDir, outputDir).setup == Ready
    ensures IsDir(Prepared(fs, inputDir, outputDir).fs, outputDir)
  {
    MadeTreeCreatesMissingParents(fs, outputDir, false);
  }

  method Prepare(disk: FileSystem, inputDir: string, outputDir: string) returns (setup: Setup)
    modifies disk
    ensures Preparation(setup, disk.entries) == Prepared(old(disk.entries), inputDir, outputDir)
  {
    if !IsDirOrRoot(disk.entries, inputDir) {
      return InputMissing;
    }
    if Exists(disk.entries, outputDir) {
      return Ready;
    }
    var err := disk.MakeTree(outputDir, false);
    setup := if err.None? then Ready else OutputUncreatable;
  }

  /** The filesystem after the worker ran on `names[..n]` in order, item `k`
      seeing transcoder run `transcoder(k)` and clock reading `clock(k)`. */
  function ConvertAll(fs: Tree, names: seq<string>, n: nat, outputDir: string, targetExt: string,
                      trashDir: string, transcoder: nat -> TranscoderRun, clock: nat -> string): (r: Tree)
    requires n <= |names|
    ensures DirsKept(fs, r)
  {
    if n == 0 then fs
    else
      var before := ConvertAll(fs, names, n - 1, outputDir, targetExt, trashDir, transcoder, clock);
      ConvertStep(before, names[n - 1], outputDir, targetExt, trashDir, transcoder(n - 1), clock(n - 1)).fs
  }

  /** The outcomes the worker reported for `names[..n]`, in order. */
  function Outcomes(fs: Tree, names: seq<string>, n: nat, outputDir: string, targetExt: string,
                    trashDir: string, transcoder: nat -> TranscoderRun, clock: nat -> string): (r: seq<Outcome>)
    requires n <= |names|
    ensures |r| == n
  {
    if n == 0 then []
    else
      var before := ConvertAll(fs, names, n - 1, outputDir, targetExt, trashDir, transcoder, clock);
      Outcomes(fs, names, n - 1, outputDir, targetExt, trashDir, transcoder, clock)
        + [ConvertStep(before, names[n - 1], outputDir, targetExt, trashDir, transcoder(n - 1), clock(n - 1)).outcome]
  }

  /** One more name run through the worker. */
  lemma ConvertAllStep(fs: Tree, names: seq<string>, n: nat, outputDir: string, targetExt: string,
                       trashDir: string, transcoder: nat -> TranscoderRun, clock: nat -> string, before: Tree)
    requires n < |names| && before == ConvertAll(fs, names, n, outputDir, targetExt, trashDir, transcoder, clock)
    ensures ConvertAll(fs, names, n + 1, outputDir, targetExt, trashDir, transcoder, clock)
            == ConvertStep(before, names[n], outputDir, targetExt, trashDir, transcoder(n), clock(n)).fs
  {
  }

  /** A name whose destination already exists when its turn comes leaves
      the filesystem as it was. */
  lemma ConvertAllSkips(fs: Tree, names: seq<string>, n: nat, outputDir: string, targetExt: string,
                        trashDir: string, transcoder: nat -> TranscoderRun, clock: nat -> string)
    requires 0 < n <= |names|
    requires DestinationPath(names[n - 1], outputDir, targetExt)
             in ConvertAll(fs, names, n - 1, outputDir, targetExt, trashDir, transcoder, clock)
    ensures ConvertAll(fs, names, n, outputDir, targetExt, trashDir, transcoder, clock)
            == ConvertAll(fs, names, n - 1, outputDir, targetExt, trashDir, transcoder, clock)
  {
  }

  /** `convert` on the live filesystem. */
  method Convert(disk: FileSystem, original: string, outputDir: string, targetExt: string,
                 trashDir: string, run: TranscoderRun, timestamp: string) returns (outcome: Outcome)
    modifies disk
    ensures var r := ConvertStep(old(disk.entries), original, outputDir, targetExt, trashDir, run, timestamp);
            disk.entries == r.fs && outcome == r.outcome
  {
    var dest := DestinationPath(original, outputDir, targetExt);
    if dest in disk.entries {
      return Skipped;
    }
    if run.output.Some? {
      disk.entries := disk.entries[dest := File(run.output.value)];
    }
    if run.exitCode != 0 {
      return ConversionFailed(run.exitCode);
    }
    var err := TrashFile(disk, original, trashDir, timestamp);
    if err.None? {
      outcome := Converted;
    } else {
      outcome := TrashFailed(err.value);
    }
  }

  /** `trash_file` on the live filesystem. */
  method TrashFile(disk: FileSystem, original: string, trashDir: string, timestamp: string) returns (err: Option<MoveError>)
    modifies disk
    ensures var r := Trashed(old(disk.entries), original, trashDir, timestamp);
            && (err.None? <==> r.Ok?)
            && (r.Ok? ==> disk.entries == r.value)
            && (r.Err? ==> err == Some(r.error) && disk.entries == old(disk.entries))
  {
    var base := Basename(original);
    var target := JoinPath(trashDir, base);
    if target in disk.entries {
      target := JoinPath(trashDir, StampedName(base, timestamp));
    }
    err := disk.Move(original, target);
  }

  /** Runs the worker on every name in order. */
  method ConvertEach(disk: FileSystem, names: seq<string>, outputDir: string, targetExt: string,
                     trashDir: string, transcoder: nat -> TranscoderRun, clock: nat -> string)
    returns (outcomes: seq<Outcome>)
    modifies disk
    ensures disk.entries == ConvertAll(old(disk.entries), names, |names|, outputDir, targetExt, trashDir, transcoder, clock)
    ensures outcomes == Outcomes(old(disk.entries), names, |names|, outputDir, targetExt, trashDir, transcoder, clock)
  {
    outcomes := [];
    var i := 0;
    while i < |names|
      invariant 0 <= i <= |names|
      invariant disk.entries == ConvertAll(old(disk.entries), names, i, outputDir, targetExt, trashDir, transcoder, clock)
      invariant outcomes == Outcomes(old(disk.entries), names, i, outputDir, targetExt, trashDir, transcoder, clock)
    {
      ghost var before := disk.entries;
      var o := Convert(disk, names[i], outputDir, targetExt, trashDir, transcoder(i), clock(i));
      ConvertAllStep(old(disk.entries), names, i, outputDir, targetExt, trashDir, transcoder, clock, before);
      outcomes := outcomes + [o];
      i := i + 1;
    }
  }
}
