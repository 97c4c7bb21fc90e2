# everyday_tools, modelled in Dafny

`everyday_tools` is a set of small, independent command-line utilities. This
project models the logic of ten of them and proves properties of it:

- **To-do list manager** (`todo_list.py`). Tasks are kept in a list edited in
  place:
  - adding appends a task numbered `len + 1` with status "Pending";
  - marking a task completed and deleting a task both act on the first task
    whose ID matches.
  The due date (`DD-MM-YYYY` or `DD/MM/YYYY`) and the start/end times (`HH:MM`)
  are validated the way `datetime.strptime` validates them.
- **File encryptor** (`file_encryptor.py`). The file is XOR-ed with a 32-byte
  key derived from a password. The same transform encrypts and decrypts.
- **Audio batch converters** (`convert_wav_to_flac.py`, `convert_flac_to_wav.py`).
  Both share one worker:
  - read the NUL-separated output of `find`;
  - derive each destination name;
  - skip a file whose destination exists;
  - run the transcoder;
  - on success, move the original into the trash, adding a timestamp to its
    name when that name is taken.
- **File organiser** (`file_organiser.py`). Each file of a directory goes into
  a category folder chosen by its lower-cased extension.
- **Disk-usage analyser** (`disk_usage_analyser.py`). Each item of a directory
  is sized, directories recursively. The items are sorted largest first,
  stably, and totalled.
- **Password generator** (`password_generator.py`). It checks the length
  bounds, seeds one upper-case letter, one digit and one punctuation mark,
  fills up from all pools, then shuffles.
- **Webpage downloader** (`webpage_downloader.py`). It checks the URL scheme,
  derives a file name from the URL and saves the page under it.
- **Weather checker** (`weather_checker.py`). It looks up a country name's
  two-letter code, builds the wttr.in request and lays out the report.
- **Time tracker** (`time_tracker.py`). It starts a named task, formats the
  elapsed time as hours, minutes and seconds, and appends a log entry.

## How the model is built

There is one Dafny module per utility, plus four shared modules:

| module | what it holds |
|---|---|
| `Wrappers` | `Option` and `Result` |
| `Text` | The Python `str` methods the tools use: `lower`, `upper`, `capitalize`, `strip`, `split`, `replace`, `str(int)` |
| `Paths` | `os.path.join`, `basename`, `dirname`, `split` and `splitext`, and the stem taken with `rsplit(".", 1)[0]` |
| `Storage` | The filesystem as a map from path to `File(size)` or `Directory`, with `os.mkdir`, `os.makedirs` and `shutil.move` |

- **Filesystem.** `Storage` gives pure functions for `os.makedirs` and
  `shutil.move`. The `FileSystem` class holds that map as a field, and its
  methods change it in place.
- **Stateful code.** Where the source changes things step by step, the model
  is imperative:
  - the to-do list is the class `TodoList.TodoList` with a `seq<Task>` field;
  - the converters, the organiser and the downloader are methods on a
    `FileSystem`;
  - the report sort is an in-place insertion sort on an array;
  - the password is built by a loop and shuffled in place on an array.
- **Specification.** Each such method is proved against a pure function.
  The properties are then proved about that function.
- **Outside influences become parameters:**
  - what `find` printed;
  - the transcoder's exit codes and the files it leaves;
  - clock readings and elapsed times;
  - the SHA-256 digest;
  - the fetched page;
  - the weather service's reply;
  - the listing `os.listdir` returns.
- **Randomness.** Each `random.choice` and each swap of `random.shuffle` is an
  arbitrary choice from the same range, and the proofs hold for every choice.

**Where the code and its description differ, the model follows the code:**

- The downloader's file name is the last piece of `url.split("//")`. That is
  not always the text after the last "//": a run of three slashes leaves one
  slash in the last piece (`WebpageDownloader.TripleSlashKeepsOneSlash`).
- The weather table maps "united kingdom" to "UK", not to ISO 3166-1's "GB".
  The code's own comments name "UK" as a valid code, so this is treated as
  intended (`WeatherChecker.UnitedKingdomIsUK`).
- The weather request path is sent unquoted. `http.client` refuses a path
  holding a space, a control character or a non-ASCII character, so a city
  such as "New York" never reaches the service and the tool reports no
  weather (`WeatherChecker.SpacedCityGetsNoReport`).
- `shutil.move` to a trash name whose directory does not exist fails. The
  worker then leaves both the new file and the original in place
  (`BatchConvert.MissingTrashKeepsOriginal`).
- `find`'s output is read in text mode, which turns every "\r" into "\n".
  A file whose name holds a carriage return is therefore handed to the
  transcoder under another name (`BatchConvert.ReturnInNameIsMisread`).
- A failing transcoder may leave a partial file at the destination. Every
  later run then skips that file, so its original is never converted again
  or trashed (`BatchConvert.PartialOutputStrandsOriginal`).
- Durations may be negative, because the wall clock can go back. The time
  tracker's formatting is modelled for every duration, not only for
  non-negative ones.

## Model

| member | source | states |
|---|---|---|
| TodoList.ParseHour | todo_list.py:91 | an hour `%H` accepts is below 24 |
| TodoList.ParseMinute | todo_list.py:91 | a minute `%M` accepts is below 60 |
| TodoList.ParseDay | todo_list.py:55 | a day `%d` accepts lies in 1..31 |
| TodoList.ParseMonth | todo_list.py:55 | a month `%m` accepts lies in 1..12 |
| TodoList.ParseYear | todo_list.py:55 | `%Y` accepts four digits only; the year is below 10000 and its four-digit form is exactly the text read |
| TodoList.Pad4Value | todo_list.py:55 | round trip: every year below 10000, written in four digits, reads back as itself |
| TodoList.ParseDate | todo_list.py:55 | an accepted due date is a real calendar date: year 1..9999, month 1..12, day within that month's length, leap years included |
| TodoList.ParseTime | todo_list.py:91 | an accepted time has hour below 24 and minute below 60 |
| TodoList.ValidateTime | todo_list.py:87-94 | an accepted time is two colon-separated fields of one or two characters each |
| TodoList.ValidDate | todo_list.py:53-58 | an accepted date is three dash-separated fields: one or two, one or two, and four characters |
| TodoList.TimeAccepted | todo_list.py:87-94 | every hour 0-23 and minute 0-59, written with one or two digits per field, is accepted and read back as that time |
| TodoList.TimeAcceptsOnlyClockTexts | todo_list.py:87-94 | conversely, every text `validate_time` accepts is "H:M" with both fields spelling the time read |
| TodoList.DateAccepted | todo_list.py:53-58 | every calendar date of years 1-9999, with day and month in any spelling `%d`/`%m` accept, is accepted and read back |
| TodoList.DateAcceptsOnlyDateTexts | todo_list.py:53-58 | conversely, an accepted date text is day, month and four-digit year separated by "-" |
| TodoList.NoThirtyFirstFebruary | todo_list.py:55 | "31-02-YYYY" is rejected for every year |
| TodoList.LeapDayOnlyInLeapYears | todo_list.py:55 | "29-02-YYYY" is accepted exactly in leap years |
| TodoList.CalendarChecked | todo_list.py:55 | both calendar facts together |
| TodoList.NormaliseDueDate | todo_list.py:52 | the stored due date has every "/" replaced and keeps its length |
| TodoList.NewTask | todo_list.py:41-83 | the due date is checked first, then both times, and each error happens exactly under its condition; a new task gets ID `str(len + 1)`, status "Pending", the capitalised priority, the normalised date and the given fields |
| TodoList.PriorityNotValidated | todo_list.py:46 | whether a task is added never depends on the priority text |
| TodoList.SlashDateSameAsDash | todo_list.py:50-52 | a date written with "/" gives the same result as with "-" |
| TodoList.FirstMatch | todo_list.py:120-121 | the scan finds the first task carrying the ID, or reports that none does |
| TodoList.MarkCompleted | todo_list.py:115-128 | only the first matching task gets status "Completed", all others are unchanged; with no match the list is unchanged |
| TodoList.MarkReport | todo_list.py:120-128 | "not found" exactly when no task matches; "already completed" leaves the list as it was |
| TodoList.RemoveTask | todo_list.py:131-141 | the first matching task is removed and the rest keep their order; with no match the list is unchanged |
| TodoList.FirstMatchOnlyReadsIds | todo_list.py:120-121 | the scan depends only on the IDs |
| TodoList.MarkCompletedIdempotent | todo_list.py:120-127 | marking twice is marking once, and the second call reports "already completed" |
| TodoList.RemoveTaskRemovesOne | todo_list.py:136-138 | deleting removes exactly one occurrence of the matched task (multiset) |
| TodoList.DeleteThenAddRepeatsId | todo_list.py:44 | in a list numbered 1..n, deleting any task but the last and then adding gives the new task the last task's ID; marking or deleting by that ID then never reaches the new task |
| TodoList.ShadowedByEarlierTwin | todo_list.py:120-121 | a task behind an earlier one with the same ID is shadowed: mark skips it and delete removes something before it |
| TodoList.TodoList.AddTask | todo_list.py:41-84 | appends the new task at the end, or reports the error and leaves the list unchanged |
| TodoList.TodoList.MarkTaskCompleted | todo_list.py:115-128 | the linear scan leaves the list as `MarkCompleted` gives and reports as `MarkReport` |
| TodoList.TodoList.DeleteTask | todo_list.py:131-141 | the linear scan leaves the list as `RemoveTask` gives; "found" exactly when some task matched |
| FileEncryptor.GenerateKey | file_encryptor.py:6-8 | the key is 32 bytes, hence never empty |
| FileEncryptor.XorTransform | file_encryptor.py:11-13 | output length equals input length (empty in, empty out); byte i is `data[i] XOR key[i mod len(key)]` |
| FileEncryptor.XorInvolution | file_encryptor.py:11-13 | applying the transform twice with one key gives back the data |
| FileEncryptor.EncryptFile | file_encryptor.py:16-26 | only the named file changes, replaced by its transform; it fails exactly when the file is missing |
| FileEncryptor.DecryptFile | file_encryptor.py:29-39 | decryption is the same operation as encryption |
| FileEncryptor.DecryptUndoesEncrypt | file_encryptor.py:18-34 | decrypting with the password used to encrypt restores every file |
| FileEncryptor.Run | file_encryptor.py:42-57 | a missing file is refused first, then an action other than e/d (any case); an existing file with "e" or "d" in any case is replaced by its transform, as `EncryptFile` gives |
| FileEncryptor.RunRoundTrip | file_encryptor.py:42-57 | running with "e" and then with "d" on the same file and password gives back the original files |
| BatchConvert.FoundNames | convert_wav_to_flac.py:39-42 | the names read from `find` output, newlines translated, are non-empty and contain no NUL |
| BatchConvert.NulSeparated | convert_wav_to_flac.py:40-42 | the non-empty segments between NULs are non-empty and NUL-free |
| BatchConvert.NulSeparatedOfPrint0 | convert_wav_to_flac.py:40-42 | round trip: splitting `-print0` output at NULs recovers exactly the printed names, in order |
| BatchConvert.TranslatePrint0 | convert_wav_to_flac.py:39 | text-mode decoding of `-print0` output translates each name on its own; no "\r\n" spans a NUL |
| BatchConvert.FoundNamesOfPrint0 | convert_wav_to_flac.py:37-42 | reading `-print0` output in text mode yields the printed names, in order, each with its carriage returns read as newlines |
| BatchConvert.TranslatedNamesWithoutReturn | convert_wav_to_flac.py:39 | names without a carriage return are read back unchanged |
| BatchConvert.ReturnInNameIsMisread | convert_wav_to_flac.py:39-42 | a file whose name holds "\r" is yielded under a different name |
| BatchConvert.DestinationPath | convert_wav_to_flac.py:50-51 | with a dotted, slash-free extension, the destination starts with the output directory and ends with the extension |
| BatchConvert.DestinationInOutputDir | convert_wav_to_flac.py:50-51 | the destination lies in the output directory, ends with the target extension, and is named by the basename up to its last "." |
| BatchConvert.StampedName | convert_wav_to_flac.py:88-90 | the stamped trash name is longer than the basename and does not start with "/" |
| BatchConvert.TrashPath | convert_wav_to_flac.py:83-90 | the trash name, plain or stamped, lies under the trash directory |
| BatchConvert.Trashed | convert_wav_to_flac.py:81-92 | trashing succeeds only for an existing file, removes no directory, and moves it to a path under the trash directory |
| BatchConvert.TrashPathAvoidsTakenName | convert_wav_to_flac.py:83-90 | the trash name is the basename when that name is free; otherwise it is a different, stamped name (the same code is at convert_flac_to_wav.py:77-84) |
| BatchConvert.SkippedOrFailed | convert_wav_to_flac.py:53-78 | skipped exactly when the destination exists, and then nothing changes; failed exactly when there was no destination and the transcoder exited non-zero, and then the only change is the partial file it left, if any (the same code is at convert_flac_to_wav.py:51-72) |
| BatchConvert.PartialOutputStrandsOriginal | convert_wav_to_flac.py:54-78 | after a failed run that left a partial file, a rerun skips the file and the original stays with its content |
| BatchConvert.ConvertStep | convert_wav_to_flac.py:47-78 | the worker never removes a directory, and an original that is not converted stays with its content |
| BatchConvert.ConvertAll | convert_wav_to_flac.py:30-32 | a whole batch never removes a directory |
| BatchConvert.SuccessMovesOriginalToTrash | convert_wav_to_flac.py:74-76 | "converted" means no destination existed, the transcoder exited 0, what it wrote was kept and the original trashed |
| BatchConvert.TrashedOriginal | convert_wav_to_flac.py:92 | after trashing, the trash name holds the original's content, the original path is gone and other entries stay |
| BatchConvert.RerunSkips | convert_wav_to_flac.py:54-56 | running the worker again on a converted file whose output was written skips it and changes nothing |
| BatchConvert.SameNameTrashedTwice | convert_wav_to_flac.py:86-92 | two originals with the same basename, the plain name free at first, both survive in the trash under different names |
| BatchConvert.StampedNamesDiffer | convert_wav_to_flac.py:89-90 | different timestamps give different stamped names |
| BatchConvert.SameNameStampedTwice | convert_wav_to_flac.py:86-92 | two originals with the same basename trashed when the plain name is taken both get stamped names; with different timestamps both survive, each with its own content |
| BatchConvert.MissingTrashRefusesMove | convert_wav_to_flac.py:9 | without the trash directory, `shutil.move` to a fresh trash name fails with a missing parent |
| BatchConvert.MissingTrashKeepsOriginal | convert_wav_to_flac.py:74-92 | without the trash directory, a successful conversion writes the destination, keeps the original and reports the failed move |
| BatchConvert.Prepared | convert_wav_to_flac.py:20-27 | a missing input directory stops the run unchanged; an existing output entry is used as it is; a missing output directory is made by `os.makedirs`, parents included, and the run goes on exactly when that succeeds; no entry changes and only directories on the output path are added |
| BatchConvert.PreparedUnderFile | convert_wav_to_flac.py:26-27 | an output directory whose parent is a regular file cannot be made; the run stops with nothing changed |
| BatchConvert.PreparedEmptyOutput | convert_wav_to_flac.py:26-27 | an empty output name cannot be made; the run stops with nothing changed |
| BatchConvert.PreparedMakesMissingParents | convert_wav_to_flac.py:26-27 | a fresh output path is made, parents included, and the run goes on |
| BatchConvert.Prepare | convert_wav_to_flac.py:20-27 | the set-up on the live filesystem is `Prepared` |
| BatchConvert.Outcomes | convert_wav_to_flac.py:30-32 | one outcome per name handed to the worker |
| BatchConvert.ConvertAllSkips | convert_flac_to_wav.py:51-53 | in a batch, a name whose destination exists when its turn comes leaves the filesystem unchanged |
| BatchConvert.Convert | convert_wav_to_flac.py:47-78 | the worker on the live filesystem performs `ConvertStep` |
| BatchConvert.TrashFile | convert_wav_to_flac.py:81-93 | `trash_file` moves the original to its trash name, or fails with the move's error (including a missing trash directory) and changes nothing |
| BatchConvert.ConvertEach | convert_wav_to_flac.py:30-32 | the loop leaves the filesystem as `ConvertAll` gives and reports `Outcomes` |
| ConvertWavToFlac.FindWavs | convert_wav_to_flac.py:35-44 | output that cannot be decoded is the one case that raises; a failing `find` yields no names; otherwise the names read from the output, all non-empty |
| ConvertWavToFlac.FindWavsYieldsPrinted | convert_wav_to_flac.py:39-42 | `find_wavs` yields exactly the names `find` printed, provided none holds a carriage return |
| ConvertWavToFlac.Run | convert_wav_to_flac.py:12-32 | a failed set-up stops the run with the filesystem as set-up left it; output that cannot be decoded ends the run after set-up, converting nothing; otherwise every found `.wav` goes through the worker in order, and the run reports each file's outcome |
| ConvertFlacToWav.FindFlacs | convert_flac_to_wav.py:36-42 | a failing `find` raises with its exit code, and output that cannot be decoded raises too; otherwise the names read from the output, all non-empty |
| ConvertFlacToWav.FindFlacsYieldsPrinted | convert_flac_to_wav.py:38-42 | `find_flacs` yields exactly the names `find` printed, provided none holds a carriage return |
| ConvertFlacToWav.Run | convert_flac_to_wav.py:12-33 | as for `.wav`, with each file's outcome reported, except that a failing `find` also ends the run after set-up, converting nothing |
| FileOrganiser.FirstCategoryFrom | file_organiser.py:36-39 | the first category listing the extension, and no earlier one, or none at all |
| FileOrganiser.ExtensionListsDisjoint | file_organiser.py:6-14 | no extension is listed under two categories |
| FileOrganiser.CategoryIsTheListingOne | file_organiser.py:32-39 | a file goes to category i exactly when category i lists its lower-cased extension, and to no folder when none does |
| FileOrganiser.FindFolder | file_organiser.py:34-39 | the lookup loop with `break` returns that category |
| FileOrganiser.SubdirectoryStays | file_organiser.py:28-29 | sub-directories are never moved |
| FileOrganiser.UnmatchedFileStays | file_organiser.py:41-43 | files with no or an unrecognised extension are left untouched |
| FileOrganiser.NoEmptyExtension | file_organiser.py:6-14 | every listed extension is a dot and at least one more character |
| FileOrganiser.MatchedFileFiled | file_organiser.py:45-51 | a file of category i is moved towards `directory/Category` |
| FileOrganiser.FiledMoves | file_organiser.py:46-51 | with the name free in the folder, the folder exists afterwards and holds the file's content, and the old path is gone |
| FileOrganiser.FiledTakenName | file_organiser.py:50-54 | a folder already holding the name makes the move fail and leaves everything unchanged |
| FileOrganiser.MatchedFileMoved | file_organiser.py:45-52 | a matched file ends up in `directory/Category` with its content; the folder is created if absent |
| FileOrganiser.TakenNameLeavesFile | file_organiser.py:50-54 | a failed move leaves the file where it was |
| FileOrganiser.Filed | file_organiser.py:45-54 | `makedirs` raises exactly when the category path is a file; otherwise the folder exists afterwards; no directory is lost |
| FileOrganiser.FiledCrashesOnlyIfVanished | file_organiser.py:47-54 | after `makedirs`, the move never meets a missing parent, and the step raises only when the file is gone and its name is free in the folder |
| FileOrganiser.OrganiseEntry | file_organiser.py:25-54 | the loop body raises only for a non-directory with a recognised extension, and never removes a directory |
| FileOrganiser.OrganiseAll | file_organiser.py:24-54 | the whole loop never removes a directory |
| FileOrganiser.TargetDirectory | file_organiser.py:62-63 | a blank answer means the current directory |
| FileOrganiser.OrganizeFiles | file_organiser.py:17-54 | a path that is neither a directory nor the root changes nothing; otherwise the loop over the listing is `OrganiseAll` |
| FileOrganiser.RootIsOrganised | file_organiser.py:19-51 | the root passes the `isdir` test, and a matched file listed in it is moved into the root's category folder |
| FileOrganiser.OrganiseAllStep | file_organiser.py:24-54 | one pass of the loop, then the rest unless it raised |
| FileOrganiser.OrganiseOne | file_organiser.py:25-54 | the loop body on the live filesystem is `OrganiseEntry` |
| DiskUsageAnalyser.FileSize | disk_usage_analyser.py:6-14 | an unreadable file counts as 0 bytes |
| DiskUsageAnalyser.Size | disk_usage_analyser.py:17-29 | a readable folder is at least as large as each of its children |
| DiskUsageAnalyser.ChildrenSize | disk_usage_analyser.py:24-28 | the children together are at least as large as each of them |
| DiskUsageAnalyser.Walk | disk_usage_analyser.py:24 | `os.walk` of a readable folder starts with the folder's own files; a file or an unreadable folder yields nothing |
| DiskUsageAnalyser.WalkTotalIsSize | disk_usage_analyser.py:17-29 | summing what `os.walk` reports gives the folder's size: every file at any depth, counted once |
| DiskUsageAnalyser.ChildrenWalkTotal | disk_usage_analyser.py:24-28 | the same, for the children of a directory |
| DiskUsageAnalyser.GetFolderSize | disk_usage_analyser.py:17-29 | the nested accumulator loops compute the folder's size; walking a file gives 0 |
| DiskUsageAnalyser.SortedBySize | disk_usage_analyser.py:84 | the report is ordered by non-increasing size |
| DiskUsageAnalyser.SortPermutes | disk_usage_analyser.py:84 | sorting neither drops nor duplicates an item |
| DiskUsageAnalyser.SortIsStable | disk_usage_analyser.py:84 | items of equal size keep their listing order |
| DiskUsageAnalyser.SortBySize | disk_usage_analyser.py:84 | the sorted report has as many lines as the listing |
| DiskUsageAnalyser.InsertKeepsOrder | disk_usage_analyser.py:84 | one insertion step keeps the order and adds only the new item |
| DiskUsageAnalyser.InsertPermutes | disk_usage_analyser.py:84 | one insertion step adds exactly the new item |
| DiskUsageAnalyser.InsertOfSize | disk_usage_analyser.py:84 | one insertion step puts the new item after all equal-sized ones |
| DiskUsageAnalyser.InsertInPlace | disk_usage_analyser.py:84 | shifting smaller items right and dropping the new one into the gap is the insertion step; the rest of the array is untouched |
| DiskUsageAnalyser.SortInPlace | disk_usage_analyser.py:84 | the in-place sort leaves the array as `SortBySize` of its old contents |
| DiskUsageAnalyser.Usages | disk_usage_analyser.py:68-79 | one (name, size) line per listed item, directories sized recursively |
| DiskUsageAnalyser.UsagesTotal | disk_usage_analyser.py:64-81 | the total of the lines is the size of the directory |
| DiskUsageAnalyser.SortKeepsTotal | disk_usage_analyser.py:84 | sorting does not change the total |
| DiskUsageAnalyser.AnalyzeDiskUsage | disk_usage_analyser.py:44-84 | a missing or unreadable directory gives no listing; otherwise the report is the sorted lines and the running total |
| DiskUsageAnalyser.ReportIsConsistent | disk_usage_analyser.py:64-84 | the report's total is the sum of its lines and the directory's size; the lines are the listed items, largest first |
| DiskUsageAnalyser.DirectoryToAnalyse | disk_usage_analyser.py:101-104 | a blank answer defaults to "." |
| PasswordGenerator.PoolSizes | password_generator.py:19-22 | the pools hold 26, 26, 10 and 32 characters, 94 together |
| PasswordGenerator.PermutationKeepsAcceptable | password_generator.py:40 | rearranging the characters keeps every promise about the password |
| PasswordGenerator.Shuffle | password_generator.py:40 | the shuffle keeps the multiset of characters |
| PasswordGenerator.Seeded | password_generator.py:25-37 | starts with an upper-case letter, a digit and a punctuation mark; has the requested length; every character is from the pools |
| PasswordGenerator.GeneratePassword | password_generator.py:6-42 | below 8 is refused, above 128 is refused; otherwise the password has exactly that many pool characters, with at least one upper-case letter, one digit and one punctuation mark |
| WebpageDownloader.HasWebScheme | webpage_downloader.py:11 | an accepted URL starts with "http" and has at least seven characters |
| WebpageDownloader.Sanitised | webpage_downloader.py:19 | "/" and ":" become "_" and nothing else changes |
| WebpageDownloader.FileNameFor | webpage_downloader.py:19 | the file name has no "/" and no ":" and ends in ".html" |
| WebpageDownloader.FileNameOfPlainUrl | webpage_downloader.py:19 | for "scheme://rest" with no further "//", the name is `rest` sanitised plus ".html" |
| WebpageDownloader.TripleSlashKeepsOneSlash | webpage_downloader.py:19 | "http://host///page" is saved as "_page.html" |
| WebpageDownloader.OutputReady | webpage_downloader.py:14-16 | an existing output entry is left alone; a missing one is made with its parents, adding only directories on its path, and is a directory on success |
| WebpageDownloader.DownloadWebpage | webpage_downloader.py:7-44 | a bad scheme is refused before any directory is created; a failing `makedirs` ends the call; the save path is the output directory joined with the file name; a failed fetch or save writes nothing |
| WebpageDownloader.MissingOutputDirIsMade | webpage_downloader.py:14-16 | a fresh output path is made, parents included |
| WebpageDownloader.Answers | webpage_downloader.py:49-56 | both answers are stripped, and a blank directory means "." |
| WeatherChecker.TableEntry | weather_checker.py:6-170 | every table name is lower-case and at least four characters long; every code is two upper-case letters and never "GB" |
| WeatherChecker.FoundInAnyCase | weather_checker.py:184 | every country of the table is found under its name in any mix of cases |
| WeatherChecker.FoundUnderName | weather_checker.py:184 | a case-insensitive lookup finds the entry of any lower-case key |
| WeatherChecker.CodeShape | weather_checker.py:173-184 | whatever is typed, a result is two upper-case letters, never "GB", and only a text of four or more characters is recognised |
| WeatherChecker.GetCountryCode | weather_checker.py:173-184 | a code is found exactly when the lower-cased name is a key of the table |
| WeatherChecker.ShortInputHasNoCode | weather_checker.py:184 | a typed code such as "US" or "GB" yields None |
| WeatherChecker.UnitedKingdomIsUK | weather_checker.py:161 | "united kingdom", in any case, is sent as "UK" |
| WeatherChecker.RequestWithCode | weather_checker.py:200-206 | with a code, the request path is "/city,code?format=j1" |
| WeatherChecker.QuerySplitsBack | weather_checker.py:200 | the city and the code can be recovered from the query by splitting at commas |
| WeatherChecker.Query | weather_checker.py:200 | the query is the city, followed by ",code" exactly when a code is given |
| WeatherChecker.RequestPath | weather_checker.py:206 | the request path can be sent exactly when the query can: no control character, space or non-ASCII character |
| WeatherChecker.GetWeather | weather_checker.py:187-222 | a reply is returned exactly when the request path can be sent and the service answers 200 with a decodable body |
| WeatherChecker.SpacedCityIsNeverSent | weather_checker.py:198-222 | a city with a space never yields a reply: the request raises and `None` is returned |
| WeatherChecker.SpacedCityGetsNoReport | weather_checker.py:284-292 | a city answer with an inner space gives only "No weather information available." |
| WeatherChecker.Location | weather_checker.py:260-262 | the label is the capitalised city, followed by ", " and the upper-cased country exactly when a country is given |
| WeatherChecker.LocationIsNormalised | weather_checker.py:260-262 | the label is already in display form (capitalised city, upper-case country) |
| WeatherChecker.Report | weather_checker.py:229-275 | no data gives the single "No weather information available." line; otherwise twelve lines: a blank line, the heading with the location, then one line per field, each starting with its label in print order |
| WeatherChecker.ReportShowsConditions | weather_checker.py:244-275 | every field of the current conditions can be read back from its line, between the label and the unit |
| WeatherChecker.CodeForRecognised | weather_checker.py:289 | a recognised country is looked up and yields a non-empty code |
| WeatherChecker.CodeFor | weather_checker.py:286-289 | a code is sent exactly when the stripped answer is non-empty and found in the table, and it is that entry |
| WeatherChecker.CheckWeather | weather_checker.py:278-292 | `display_weather` prints either the single no-data line or twelve lines whose second is "Weather in" and the location, and the latter only after a request that could be sent |
| WeatherChecker.RecognisedCountryIsSent | weather_checker.py:286-291 | a recognised country is sent as its code after the city |
| WeatherChecker.UnknownCountryIsDropped | weather_checker.py:286-292 | an unrecognised country is dropped from the request but still shown in the heading |
| WeatherChecker.TypedCodeIsDropped | weather_checker.py:289 | a two- or three-letter answer never reaches the service |
| TimeTracker.WholeSeconds | time_tracker.py:60 | the whole seconds are the duration rounded down |
| TimeTracker.ClockAddsUp | time_tracker.py:60-62 | hours·3600 + minutes·60 + seconds is the whole seconds; minutes and seconds are below 60; hours are not wrapped at 24 |
| TimeTracker.IntToString | time_tracker.py:62 | `int` printed with a leading "-" exactly when negative, and no space |
| TimeTracker.DurationTextPieces | time_tracker.py:62 | the text is "{h}h {m}m {s}s": cutting at spaces gives the three labelled numbers |
| TimeTracker.FormatDuration | time_tracker.py:56-62 | the text cut at spaces is the hours, minutes and seconds of the clock split, each followed by its unit |
| TimeTracker.FormatShowsWholeSeconds | time_tracker.py:56-62 | two durations print the same exactly when they have the same whole seconds: sub-second parts are dropped, nothing else |
| TimeTracker.Stamp | time_tracker.py:76-77 | a timestamp is a single line |
| TimeTracker.StartTask | time_tracker.py:11-29 | a started task carries the stripped name and the start moment |
| TimeTracker.BlankNameRefused | time_tracker.py:19-24 | a task is refused exactly when its name is empty or whitespace |
| TimeTracker.WrittenSplitsBack | time_tracker.py:74-79 | lines written each with a newline split back into those lines |
| TimeTracker.LogEntryLines | time_tracker.py:74-79 | an entry reads back as "Task:", "Start Time:", "End Time:" and "Duration:" lines and a rule of forty "=" |
| TimeTracker.StopTask | time_tracker.py:32-53 | the appended entry carries the formatted duration that is reported |
| TimeTracker.StoppedTaskLogged | time_tracker.py:48-51 | every stopped task's entry reads back with its duration line |
| Text.Lower | weather_checker.py:184 | `str.lower` maps each character and keeps the length |
| Text.Upper | weather_checker.py:261 | `str.upper` maps each character and keeps the length |
| Text.Capitalize | todo_list.py:46 | `str.capitalize` keeps the length, upper-cases the first character and lower-cases every other one |
| Text.CapitalizeIdempotent | weather_checker.py:261 | capitalising twice is capitalising once |
| Text.UpperIdempotent | weather_checker.py:261 | upper-casing twice is upper-casing once |
| Text.Strip | time_tracker.py:19 | `str.strip` gives the infix left after removing only whitespace at both ends: everything cut off is whitespace, and the result neither starts nor ends with whitespace |
| Text.StripEmptyIffBlank | time_tracker.py:19-22 | the stripped text is empty exactly when the input is all whitespace |
| Text.ReplaceChar | todo_list.py:52 | `replace` of one character changes exactly its occurrences |
| Text.Repeat | time_tracker.py:79 | `"=" * n` is n copies |
| Text.Split | webpage_downloader.py:19 | `str.split` always gives at least one piece |
| Text.JoinSplit | convert_wav_to_flac.py:40 | splitting loses nothing: joining the pieces with the separator gives the input back |
| Text.SplitPiecesExclude | convert_wav_to_flac.py:40 | no piece of a split at a character contains it |
| Text.TranslateRemovesReturns | convert_wav_to_flac.py:39 | text mode leaves no carriage return |
| Text.TranslateAddsOnlyNewlines | convert_wav_to_flac.py:39 | text mode brings in no character other than "\n" |
| Text.TranslateWithoutReturn | convert_wav_to_flac.py:39 | text without a carriage return is read unchanged |
| Text.TranslateKeepsNonEmpty | convert_wav_to_flac.py:39 | a non-empty text is read as a non-empty text |
| Text.TranslateAppend | convert_wav_to_flac.py:39 | two texts are read piecewise unless a "\r\n" spans their seam |
| Text.NatToString | todo_list.py:44 | `str(n)` is the shortest decimal numeral whose value is n |
| Text.NatToStringInjective | todo_list.py:44 | different numbers have different numerals |
| Paths.LastIndexOf | convert_wav_to_flac.py:50 | the last occurrence of a character, or -1 |
| Paths.JoinPath | file_organiser.py:25 | `os.path.join`: an absolute second part replaces the first; otherwise the result starts with the first and ends with the second |
| Paths.Basename | convert_wav_to_flac.py:83 | `os.path.basename` is the slash-free tail after the last "/" |
| Paths.BasenameOfJoin | convert_wav_to_flac.py:84 | joining a slash-free name onto a directory gives a path whose basename is that name |
| Paths.JoinedName | convert_wav_to_flac.py:51 | a joined stem plus extension lies in the directory and ends with the extension |
| Paths.StemBeforeLastDot | convert_wav_to_flac.py:50 | `rsplit(".", 1)[0]` is the text before the last dot, or the whole name |
| Paths.SplitExt | file_organiser.py:32 | `os.path.splitext` splits the path into two parts that rejoin to it; the extension is empty or one dot followed by dot- and slash-free text |
| Paths.StemAgreesWithSplitExtUnlessDotFile | convert_wav_to_flac.py:50 | the converter's `rsplit` stem and the trash's `splitext` root agree exactly unless the name is a dot-file whose only dots lead it |
| Paths.DotFileNaming | convert_wav_to_flac.py:88 | ".wav" has the empty stem but no extension |
| Paths.Dirname | convert_wav_to_flac.py:92 | `os.path.dirname` is a prefix of the path ending in a non-slash, or all slashes |
| Paths.SplitPath | convert_wav_to_flac.py:27 | the split `os.makedirs` makes: a slash-free last component, empty only for the root or the empty path, and a shorter prefix as the directory part |
| Paths.DirnameOfJoin | convert_wav_to_flac.py:84 | a slash-free name joined onto a directory has that directory, without trailing slashes, as its parent |
| Paths.DirnameUnderDirectory | convert_wav_to_flac.py:9 | a name joined onto "dir/" lies under "dir/" and has `dir` as its parent |
| Storage.Moved | convert_wav_to_flac.py:92 | `shutil.move` of an existing file succeeds exactly when its name is free in a target directory (the root included), or, for a target that is not a directory, when the target's parent directory exists; a missing parent is reported as such; the content moves and every other entry stays |
| Storage.MovedIntoRoot | file_organiser.py:51 | a move into the root puts the file under its basename there, never at the root's own path |
| Storage.MovedKeeps | convert_wav_to_flac.py:92 | a successful move keeps every entry other than its source and target |
| Storage.MovedKeepsDirectories | convert_wav_to_flac.py:92 | a successful move of a file removes no directory |
| Storage.MadeDirs | file_organiser.py:47 | `makedirs(exist_ok=True)` fails exactly on a file; otherwise the directory exists afterwards, no directory is lost and nothing else changes |
| Storage.FileSystem.MakeDirs | file_organiser.py:47 | the live `makedirs` performs `MadeDirs` |
| Storage.MadeDirsAgrees | file_organiser.py:47 | `MadeDirs` is `makedirs(exist_ok=True)` whenever the folder's parent is a directory |
| Storage.Mkdir | convert_wav_to_flac.py:27 | `os.mkdir` raises `FileExistsError` exactly when something is at the path; on success exactly the new directory is added |
| Storage.MkdirLast | convert_wav_to_flac.py:27 | the last `mkdir` of `makedirs`: with `exist_ok` an existing directory is no error; on success the path is a directory |
| Storage.MadeTree | convert_wav_to_flac.py:27 | `os.makedirs`: no existing entry changes, every new entry is a directory on the path, and on success the path is a directory |
| Storage.MadeTreeFailsOnExisting | webpage_downloader.py:16 | a regular file at the path, or any entry there without `exist_ok`, makes `makedirs` raise |
| Storage.MadeTreeInDirectory | file_organiser.py:47 | inside an existing directory, `makedirs` adds exactly the one directory |
| Storage.MadeTreeUnderFile | convert_wav_to_flac.py:27 | a regular file in the parent's place makes `makedirs` raise and change nothing |
| Storage.MadeTreeCreatesMissingParents | convert_wav_to_flac.py:27 | with no entry on the way to the path, `makedirs` makes every missing level and succeeds |
| Storage.MadeTreeEmptyPath | convert_wav_to_flac.py:27 | `makedirs("")` raises and changes nothing |
| Storage.FileSystem.MakeTree | convert_wav_to_flac.py:27 | the live `makedirs` performs `MadeTree`, reporting its error |
| Storage.FileSystem.Move | file_organiser.py:51 | the live `shutil.move` performs `Moved`, reporting its error (a taken name, a missing source or a missing parent) and changing nothing when it fails |

## Left out

- Input and output: prompts, menus, printed messages and the interactive
  loops are not modelled. Answers are parameters and reports are values.
- The to-do list's CSV persistence (`load_tasks`, `save_tasks`) is not
  modelled. Neither is `list_tasks`, which only prints.
- The time tracker's `view_log` and the path of the log file are not
  modelled. The log is modelled as the text appended to it.
- The two converters' `ThreadPoolExecutor`: the workers run one after
  another in the order `find` printed the names. The check-then-move races
  between concurrent workers are not modelled.
- Subprocesses: `find` is its output decoded as text, output that cannot
  be decoded, or a failing exit code. `ffmpeg` is its exit code and the size
  of the file it leaves at the destination, if any.
- ConvertWavToFlac.FindWavs and ConvertFlacToWav.FindFlacs: the locale's
  decoding of `find`'s bytes is not modelled; whether they decode is a
  parameter (`Undecodable`).
- BatchConvert.ConvertStep: the transcoder's run is not tied to the
  filesystem. A run that exits 0 without leaving its output, or one that
  writes into an output directory that is a regular file, is not ruled out.
- BatchConvert.RerunSkips and BatchConvert.MissingTrashKeepsOriginal: both
  need the transcoder to have left its output file, since a run that left
  none gives no destination to find.
- BatchConvert.Prepared: does not promise that set-up adds only the output
  directory, because `os.makedirs` also adds missing parents. It promises
  that only directories on the output path are added.
- Paths are compared as written: ".", ".." and repeated or trailing slashes
  are not resolved. For the same reason `os.makedirs`'s special case for a
  last component "." is not modelled.
- WeatherChecker.CheckWeather: the error line `get_weather` prints when the
  request fails (weather_checker.py:211 and 221) is not part of the result.
- SHA-256 is a parameter: a function from the password to 32 bytes. The
  password is not encoded to UTF-8 bytes.
- The network: the page the downloader fetches and the weather service's
  reply are parameters. JSON decoding is reduced to "no data", "empty object"
  or "current conditions", and the reply's fields are kept as the service's
  text.
- WeatherChecker.Report: the `float(...)` and `int(...)` conversions of
  precipitation and cloud cover, and a reply missing a field (a `KeyError`),
  are not modelled.
- DiskUsageAnalyser.AnalyzeDiskUsage: `display_size`'s floating-point
  formatting and the closing timestamp are not modelled. Symbolic links and
  `os.walk`'s treatment of them are not modelled.
- TimeTracker.FormatDuration: `timedelta.total_seconds()` is a float in the
  source. The model divides exact microseconds, so float rounding of very
  long durations is not modelled.
- TimeTracker.StopTask: the clock is a parameter. The elapsed time is given
  rather than computed by subtracting two `datetime`s.
- TimeTracker.Stamp: the year is written as its decimal numeral. The
  platform's padding of `%Y` for years below 1000 is not modelled.
- Text.Lower, Text.Upper and Text.Capitalize map ASCII letters only. Unicode
  case mapping is not modelled, and `strptime`'s `\d` is taken to match
  ASCII digits only.
- Storage.MadeDirs creates only the named directory. The organiser's folder
  lies in the organised directory, and whenever its parent is a directory
  this is what `makedirs` does (`MadeDirsAgrees`).
- Storage.Moved does not model moving a directory, or moves across devices.
- WebpageDownloader.DownloadWebpage records the saved page by its length in
  characters, not by its UTF-8 size.
- PasswordGenerator.GeneratePassword: the distribution of the random
  choices is not modelled. Every property holds for every choice. The
  `ValueError` raised when the answer is not an integer is not modelled.
- BatchConvert.ConvertAllSkips: "a second run of a finished batch changes
  nothing" is stated one file at a time (`RerunSkips`, `ConvertAllSkips`),
  not as one lemma over a whole rerun of a batch.
