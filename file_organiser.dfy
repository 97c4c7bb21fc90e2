/** `file_organiser.py`: moves the files directly inside a directory into
    category sub-folders ("Images", "Documents", ...) chosen by their
    extension. Sub-directories and files with an unrecognised extension
    stay where they are. */
module FileOrganiser {
  import opened Wrappers
  import opened Text
  import opened Paths
  import opened Storage

  /** `EXTENSION_MAP`, in its insertion order: each category with the
      lower-case extensions it collects. The lookup only asks whether an
      extension is listed, so each list is kept as a set. */
  const ExtensionMap: seq<(string, set<string>)> := [
    ("Images", {".jpg", ".jpeg", ".png", ".gif", ".bmp", ".svg"}),
    ("Documents", {".pdf", ".docx", ".txt", ".xlsx", ".pptx"}),
    ("Videos", {".mp4", ".avi", ".mkv", ".mov"}),
    ("Audio", {".mp3", ".wav", ".flac"}),
    ("Archives", {".zip", ".tar", ".gz", ".rar"}),
    ("Scripts", {".py", ".sh", ".js", ".html", ".css"}),
    ("Books", {".epub"})
  ]

  /** True when category `i` lists the extension. */
  predicate Lists(i: nat, ext: string)
    requires i < |ExtensionMap|
  {
    ext in ExtensionMap[i].1
  }

  /** The first category from index `from` on that lists `ext`. */
  function FirstCategoryFrom(from: nat, ext: string): (r: Option<nat>)
    requires from <= |ExtensionMap|
    ensures r.Some? ==> from <= r.value < |ExtensionMap| && Lists(r.value, ext)
    ensures r.Some? ==> forall j :: from <= j < r.value ==> !Lists(j, ext)
    ensures r.None? ==> forall j :: from <= j < |ExtensionMap| ==> !Lists(j, ext)
    decreases |ExtensionMap| - from
  {
    if from == |ExtensionMap| then None
    else if Lists(from, ext) then Some(from)
    else FirstCategoryFrom(from + 1, ext)
  }

  /** The folder a file with extension `ext` goes to: the first category
      listing `ext` folded to lower case, if any. */
  function Category(ext: string): Option<string> {
    match FirstCategoryFrom(0, Lower(ext))
    case Some(i) => Some(ExtensionMap[i].0)
    case None => None
  }

  /** No extension is listed under two categories. */
  lemma ExtensionListsDisjoint(i: nat, j: nat, ext: string)
    requires i < j < |ExtensionMap|
    ensures !(Lists(i, ext) && Lists(j, ext))
  {
  }

  /** Because the lists are disjoint, first-match is the only match: a file
      goes to category `i` exactly when category `i` lists its lower-cased
      extension, and to no folder when no category does. */
  lemma CategoryIsTheListingOne(ext: string, i: nat)
    requires i < |ExtensionMap|
    ensures Category(ext) == Some(ExtensionMap[i].0) <==> Lists(i, Lower(ext))
    ensures Category(ext).None? <==> forall j :: 0 <= j < |ExtensionMap| ==> !Lists(j, Lower(ext))
  {
    var e := Lower(ext);
    match FirstCategoryFrom(0, e)
    case Some(k) =>
      if k < i {
        ExtensionListsDisjoint(k, i, e);
        assert ExtensionMap[k].0 != ExtensionMap[i].0 by {
          assert k < 6 && i < 7;
        }
      } else if i < k {
        assert !Lists(i, e);
        assert ExtensionMap[k].0 != ExtensionMap[i].0;
      }
    case None =>
  }

  /** The lookup loop of `organize_files`: scans the categories in order
      and stops at the first one listing the lower-cased extension. */
  method FindFolder(ext: string) returns (folder: Option<string>)
    ensures folder == Category(ext)
  {
    var e := Lower(ext);
    folder := None;
    var i := 0;
    while i < |ExtensionMap|
      invariant 0 <= i <= |ExtensionMap|
      invariant FirstCategoryFrom(0, e) == FirstCategoryFrom(i, e)
    {
      if e in ExtensionMap[i].1 {
        folder := Some(ExtensionMap[i].0);
        return;
      }
      i := i + 1;
    }
  }

  /** Why `organize_files` stopped with an exception: the category folder's
      name is taken by a file (`makedirs`), or the listed entry disappeared
      before it was moved (`shutil.move` raising something other than
      `shutil.Error`). */
  datatype Crash = FolderIsFile | EntryVanished

  datatype Organised = Organised(fs: Tree, crash: Option<Crash>)

  /** `makedirs(folder, exist_ok=True)` then `shutil.move(path, folder)`,
      with `shutil.Error` caught and any other exception ending the run. */
  function Filed(fs: Tree, path: string, folder: string): (r: Organised)
    ensures r.crash == Some(FolderIsFile) <==> IsFile(fs, folder)
    ensures !IsFile(fs, folder) ==> IsDir(r.fs, folder)
    ensures DirsKept(fs, r.fs)
  {
    match MadeDirs(fs, folder)
    case None => Organised(fs, Some(FolderIsFile))
    case Some(prepared) =>
      match Moved(prepared, path, folder)
      case Ok(after) =>
        MovedKeepsDirectories(prepared, path, folder);
        Organised(after, None)
      case Err(DestinationExists) => Organised(prepared, None)
      case Err(_) => Organised(prepared, Some(EntryVanished))  // an OSError
  }

  /** One pass of the loop body for the listed name `name`. */
  function OrganiseEntry(fs: Tree, directory: string, name: string): (r: Organised)
    ensures r.crash.Some? ==> !IsDirOrRoot(fs, JoinPath(directory, name)) && Category(SplitExt(name).1).Some?
    ensures DirsKept(fs, r.fs)
  {
    var path := JoinPath(directory, name);
    if IsDirOrRoot(fs, path) then Organised(fs, None)
    else
      match Category(SplitExt(name).1)
      case None => Organised(fs, None)
      case Some(folder) => Filed(fs, path, JoinPath(directory, folder))
  }

  /** With the folder in place the move can only raise `shutil.Error`
      (name taken, caught) or find the entry gone: the folder is the
      directory the file lands in, so it never lacks a parent. */
  lemma FiledCrashesOnlyIfVanished(fs: Tree, path: string, folder: string)
    requires MadeDirs(fs, folder).Some?
    ensures var prepared := MadeDirs(fs, folder).value;
            && Moved(prepared, path, folder) != Err(ParentMissing)
            && (Filed(fs, path, folder).crash.Some? <==>
                  !IsFile(prepared, path) && JoinPath(folder, Basename(path)) !in prepared)
  {
  }

  /** The loop over the listed names, in order, stopping at the first
      exception. */
  function OrganiseAll(fs: Tree, directory: string, names: seq<string>): (r: Organised)
    ensures DirsKept(fs, r.fs)
    decreases |names|
  {
    if names == [] then Organised(fs, None)
    else
      var first := OrganiseEntry(fs, directory, names[0]);
      if first.crash.Some? then first else OrganiseAll(first.fs, directory, names[1..])
  }

  /** Sub-directories are never moved. */
  lemma SubdirectoryStays(fs: Tree, directory: string, name: string)
    requires IsDirOrRoot(fs, JoinPath(directory, name))
    ensures OrganiseEntry(fs, directory, name) == Organised(fs, None)
  {
  }

  /** Files whose extension no category lists are left alone. */
  lemma UnmatchedFileStays(fs: Tree, directory: string, name: string)
    requires forall j :: 0 <= j < |ExtensionMap| ==> !Lists(j, Lower(SplitExt(name).1))
    ensures OrganiseEntry(fs, directory, name) == Organised(fs, None)
  {
    CategoryIsTheListingOne(SplitExt(name).1, 0);
  }

  /** Every listed extension is a dot and at least one more character. */
  lemma NoEmptyExtension(i: nat)
    requires i < |ExtensionMap|
    ensures forall e :: e in ExtensionMap[i].1 ==> |e| >= 2
  {
  }

  /** A file of category `i` is handed to `Filed` with the folder
      `directory/Category`. */
  lemma MatchedFileFiled(fs: Tree, directory: string, name: string, i: nat)
    requires i < |ExtensionMap| && Lists(i, Lower(SplitExt(name).1))
    requires !IsDirOrRoot(fs, JoinPath(directory, name))
    ensures OrganiseEntry(fs, directory, name) ==
            Filed(fs, JoinPath(directory, name), JoinPath(directory, ExtensionMap[i].0))
  {
    CategoryIsTheListingOne(SplitExt(name).1, i);
  }

  /** Filing a file into a folder whose entry for its basename is free
      creates the folder if needed and moves the file there. */
  lemma FiledMoves(fs: Tree, path: string, folder: string)
    requires IsFile(fs, path) && !IsFile(fs, folder)
    requires var target := JoinPath(folder, Basename(path));
             target !in fs && target != folder
    ensures var target := JoinPath(folder, Basename(path));
            var r := Filed(fs, path, folder);
            && r.crash.None?
            && IsDir(r.fs, folder)
            && target in r.fs && r.fs[target] == fs[path]
            && path !in r.fs
  {
    var prepared := MadeDirs(fs, folder).value;
    assert IsFile(prepared, path) && prepared[path] == fs[path];
    var target := MoveTarget(prepared, path, folder);
    assert target == JoinPath(folder, Basename(path));
    assert target != path;
  }

  /** Filing a file into a folder that already holds its basename leaves
      everything as it was. */
  lemma FiledTakenName(fs: Tree, path: string, folder: string)
    requires IsFile(fs, path) && IsDir(fs, folder) && JoinPath(folder, Basename(path)) in fs
    ensures Filed(fs, path, folder) == Organised(fs, None)
  {
    assert MadeDirs(fs, folder) == Some(fs);
    assert MoveTarget(fs, path, folder) == JoinPath(folder, Basename(path));
    assert Moved(fs, path, folder) == Err(DestinationExists);
  }

  /** A file of category `i` whose name is free in `directory/Category`
      ends up there with its content, gone from its old place; the folder
      is created if it was absent. */
  lemma MatchedFileMoved(fs: Tree, directory: string, name: string, i: nat)
    requires i < |ExtensionMap| && Lists(i, Lower(SplitExt(name).1)) && '/' !in name
    requires IsFile(fs, JoinPath(directory, name))
    requires var folder := JoinPath(directory, ExtensionMap[i].0);
             !IsFile(fs, folder) && JoinPath(folder, name) !in fs
    ensures var folder := JoinPath(directory, ExtensionMap[i].0);
            var r := OrganiseEntry(fs, directory, name);
            && r.crash.None?
            && IsDir(r.fs, folder)
            && JoinPath(folder, name) in r.fs && r.fs[JoinPath(folder, name)] == fs[JoinPath(directory, name)]
            && JoinPath(directory, name) !in r.fs
  {
    MatchedFileFiled(fs, directory, name, i);
    var path := JoinPath(directory, name);
    var folder := JoinPath(directory, ExtensionMap[i].0);
    BasenameOfJoin(directory, name);
    assert name != [] by {
      var ext := SplitExt(name).1;
      NoEmptyExtension(i);
      assert Lower(ext) != [];
      assert name == SplitExt(name).0 + ext;
    }
    assert name[0] != '/' by {
      assert name[0] in name;
    }
    assert |JoinPath(folder, name)| > |folder|;
    FiledMoves(fs, path, folder);
  }

  /** A move refused because the category folder already holds the name
      leaves the file where it was. */
  lemma TakenNameLeavesFile(fs: Tree, directory: string, name: string, i: nat)
    requires i < |ExtensionMap| && Lists(i, Lower(SplitExt(name).1)) && '/' !in name
    requires IsFile(fs, JoinPath(directory, name))
    requires var folder := JoinPath(directory, ExtensionMap[i].0);
             IsDir(fs, folder) && JoinPath(folder, name) in fs
    ensures OrganiseEntry(fs, directory, name) == Organised(fs, None)
  {
    MatchedFileFiled(fs, directory, name, i);
    BasenameOfJoin(directory, name);
    FiledTakenName(fs, JoinPath(directory, name), JoinPath(directory, ExtensionMap[i].0));
  }

  /** `main`: an empty answer means the current directory. */
  function TargetDirectory(answer: string, cwd: string): (r: string)
    ensures answer != "" ==> r == answer
    ensures answer == "" ==> r == cwd
  {
    if answer == "" then cwd else answer
  }

  /** `organize_files` on the live filesystem, over the names `os.listdir`
      returned. A path that is neither a directory nor the root changes
      nothing. */
  method OrganizeFiles(disk: FileSystem, directory: string, listing: seq<string>) returns (crash: Option<Crash>)
    modifies disk
    ensures !IsDirOrRoot(old(disk.entries), directory) ==> disk.entries == old(disk.entries) && crash.None?
    ensures IsDirOrRoot(old(disk.entries), directory) ==>
              Organised(disk.entries, crash) == OrganiseAll(old(disk.entries), directory, listing)
  {
    crash := None;
    if !IsDirOrRoot(disk.entries, directory) {
      return;
    }
    var i := 0;
    while i < |listing|
      invariant 0 <= i <= |listing| && crash.None?
      invariant OrganiseAll(disk.entries, directory, listing[i..]) == OrganiseAll(old(disk.entries), directory, listing)
    {
      ghost var before := disk.entries;
      crash := OrganiseOne(disk, directory, listing[i]);
      OrganiseAllStep(before, directory, listing[i..], disk.entries, crash);
      assert listing[i..][1..] == listing[i + 1..];
      if crash.Some? {
        return;
      }
      i := i + 1;
    }
    assert listing[i..] == [];
  }

  /** The root counts as a directory to organise (`os.path.isdir("/")`
      holds although "/" is no entry of the tree), and a picture listed in
      it is filed into the root's own category folder. */
  lemma RootIsOrganised(fs: Tree, root: string, name: string, i: nat)
    requires root != [] && AllSlashes(root) && root !in fs
    requires i < |ExtensionMap| && Lists(i, Lower(SplitExt(name).1)) && '/' !in name
    requires IsFile(fs, JoinPath(root, name))
    requires var folder := JoinPath(root, ExtensionMap[i].0);
             !IsFile(fs, folder) && JoinPath(folder, name) !in fs
    ensures IsDirOrRoot(fs, root)
    ensures var folder := JoinPath(root, ExtensionMap[i].0);
            var r := OrganiseAll(fs, root, [name]);
            && r.crash.None?
            && IsDir(r.fs, folder)
            && JoinPath(folder, name) in r.fs && r.fs[JoinPath(folder, name)] == fs[JoinPath(root, name)]
            && JoinPath(root, name) !in r.fs
  {
    MatchedFileMoved(fs, root, name, i);
    assert [name][1..] == [];
  }

  /** One step of the loop: the run over `names` is the first entry's
      outcome, followed by the run over the rest unless it crashed. */
  lemma OrganiseAllStep(fs: Tree, directory: string, names: seq<string>, after: Tree, crash: Option<Crash>)
    requires names != [] && Organised(after, crash) == OrganiseEntry(fs, directory, names[0])
    ensures OrganiseAll(fs, directory, names) ==
            if crash.Some? then Organised(after, crash) else OrganiseAll(after, directory, names[1..])
  {
  }

  /** The loop body for one listed name on the live filesystem. */
  method OrganiseOne(disk: FileSystem, directory: string, name: string) returns (crash: Option<Crash>)
    modifies disk
    ensures Organised(disk.entries, crash) == OrganiseEntry(old(disk.entries), directory, name)
  {
    crash := None;
    var path := JoinPath(directory, name);
    if IsDirOrRoot(disk.entries, path) {
      return;
    }
    var folder := FindFolder(SplitExt(name).1);
    if folder.None? {
      return;
    }
    var target := JoinPath(directory, folder.value);
    var made := disk.MakeDirs(target);
    if !made {
      return Some(FolderIsFile);
    }
    var err := disk.Move(path, target);
    if err.Some? && err.value != DestinationExists {
      crash := Some(EntryVanished);
    }
  }
}
