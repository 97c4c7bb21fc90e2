/** An abstract filesystem: a map from path to the kind of entry found
    there (a regular file with its size, or a directory), and the two
    mutating calls the utilities make on it, `os.makedirs` and
    `shutil.move`. */
module Storage {
  import opened Wrappers
  import opened Paths

  datatype Entry = File(size: nat) | Directory

  type Tree = map<string, Entry>

  predicate IsDir(fs: Tree, p: string) { p in fs && fs[p].Directory? }

  predicate IsFile(fs: Tree, p: string) { p in fs && fs[p].File? }

  /** Why `shutil.move` raised: `shutil.Error` when the target directory
      already holds that name, an `OSError` when the source is not there
      or when the directory a renamed file would land in does not exist. */
  datatype MoveError = DestinationExists | SourceMissing | ParentMissing

  /** Whether the directory that a new entry at `p` would be created in
      exists. The root and the current directory (an empty dirname) always
      do: `AllSlashes` holds of both. */
  predicate ParentExists(fs: Tree, p: string) {
    var d := Dirname(p);
    AllSlashes(d) || IsDir(fs, d)
  }

  /** Where `shutil.move(src, dst)` puts the file: inside `dst` when `dst`
      is a directory (the root included), otherwise at `dst` itself. */
  function MoveTarget(fs: Tree, src: string, dst: string): string {
    if IsDirOrRoot(fs, dst) then JoinPath(dst, Basename(src)) else dst
  }

  /** `shutil.move(src, dst)` for a regular file. Moving into a directory
      that already holds the name fails; a move onto a plain path renames,
      replacing whatever file was there, and fails when the directory that
      path lies in is missing. */
  function Moved(fs: Tree, src: string, dst: string): (r: Result<Tree, MoveError>)
    ensures r.Ok? <==> && IsFile(fs, src)
                       && (IsDirOrRoot(fs, dst) ==> MoveTarget(fs, src, dst) !in fs)
                       && (!IsDirOrRoot(fs, dst) ==> ParentExists(fs, dst))
    ensures r.Err? && IsDirOrRoot(fs, dst) && MoveTarget(fs, src, dst) in fs ==> r.error == DestinationExists
    ensures r.Err? && IsFile(fs, src) && !IsDirOrRoot(fs, dst) ==> r.error == ParentMissing
    ensures r.Ok? ==>
      var target := MoveTarget(fs, src, dst);
      && (target != src ==> src !in r.value)
      && target in r.value && r.value[target] == fs[src]
      && forall p :: p != src && p != target ==> (p in r.value <==> p in fs) && (p in fs ==> r.value[p] == fs[p])
  {
    var target := MoveTarget(fs, src, dst);
    if IsDirOrRoot(fs, dst) && target in fs then Err(DestinationExists)
    else if !IsFile(fs, src) then Err(SourceMissing)
    else if !IsDirOrRoot(fs, dst) && !ParentExists(fs, dst) then Err(ParentMissing)
    else Ok(fs - {src} + map[target := fs[src]])
  }

  /** A successful move keeps every entry other than its source and target. */
  lemma MovedKeeps(fs: Tree, src: string, dst: string, p: string)
    requires Moved(fs, src, dst).Ok? && p in fs
    requires p != src && p != MoveTarget(fs, src, dst)
    ensures p in Moved(fs, src, dst).value && Moved(fs, src, dst).value[p] == fs[p]
  {
  }

  /** Moving into the root, which is no entry of the tree, puts the file
      under its basename there rather than at the path "/" itself. */
  lemma MovedIntoRoot(fs: Tree, src: string, root: string)
    requires root != [] && AllSlashes(root) && root !in fs
    requires IsFile(fs, src) && Basename(src) != [] && JoinPath(root, Basename(src)) !in fs
    ensures Moved(fs, src, root).Ok?
    ensures var after := Moved(fs, src, root).value;
            && JoinPath(root, Basename(src)) in after && after[JoinPath(root, Basename(src))] == fs[src]
            && root !in after
  {
    var base := Basename(src);
    assert MoveTarget(fs, src, root) == JoinPath(root, base);
    assert base[0] in base;
    assert |JoinPath(root, base)| > |root|;
  }

  /** Every directory of `before` is still a directory in `after`. */
  ghost predicate DirsKept(before: Tree, after: Tree) {
    forall p :: IsDir(before, p) ==> IsDir(after, p)
  }

  lemma DirsKeptTransitive(a: Tree, b: Tree, c: Tree)
    requires DirsKept(a, b) && DirsKept(b, c)
    ensures DirsKept(a, c)
  {
  }

  /** Writing a file under a name that was free keeps every directory. */
  lemma NewFileKeepsDirectories(fs: Tree, p: string, e: Entry)
    requires p !in fs
    ensures DirsKept(fs, fs[p := e])
  {
  }

  /** Moving a file never removes or replaces a directory: the source is a
      file, and the target is either a free name or a non-directory. */
  lemma MovedKeepsDirectories(fs: Tree, src: string, dst: string)
    requires Moved(fs, src, dst).Ok?
    ensures DirsKept(fs, Moved(fs, src, dst).value)
  {
    var after := Moved(fs, src, dst).value;
    forall p | IsDir(fs, p) ensures IsDir(after, p) {
      MovedKeeps(fs, src, dst, p);
    }
  }

  /** `os.makedirs(p, exist_ok=True)`: creates `p` unless a directory is
      already there; a file at `p` makes it raise `FileExistsError`. */
  function MadeDirs(fs: Tree, p: string): (r: Option<Tree>)
    ensures r.None? <==> IsFile(fs, p)
    ensures r.Some? ==> IsDir(r.value, p) && forall q :: q != p ==> (q in r.value <==> q in fs) && (q in fs ==> r.value[q] == fs[q])
    ensures r.Some? ==> DirsKept(fs, r.value)
  {
    if IsFile(fs, p) then None
    else if IsDir(fs, p) then Some(fs)
    else Some(fs[p := Directory])
  }

  /** `os.path.exists`: an entry, or the root. */
  predicate Exists(fs: Tree, p: string) {
    p in fs || (p != [] && AllSlashes(p))
  }

  /** `os.path.isdir`: a directory entry, or the root. */
  predicate IsDirOrRoot(fs: Tree, p: string) {
    if p in fs then fs[p].Directory? else p != [] && AllSlashes(p)
  }

  /** Why `os.mkdir` raised: `FileExistsError`, or another `OSError` when
      the directory the new one would go in is missing or not a directory
      (or the path is empty). */
  datatype MkdirError = FileExists | NoParentDirectory

  /** `os.mkdir(p)`: a new directory, in a parent that is a directory (the
      current directory when the parent part is empty). */
  function Mkdir(fs: Tree, p: string): (r: Result<Tree, MkdirError>)
    ensures r == Err(FileExists) <==> Exists(fs, p)
    ensures r.Ok? ==> !Exists(fs, p) && r.value == fs[p := Directory]
  {
    var (head, tail) := SplitPath(p);
    if Exists(fs, p) then Err(FileExists)
    else if tail != [] && (head == [] || IsDirOrRoot(fs, head)) then Ok(fs[p := Directory])
    else Err(NoParentDirectory)
  }

  /** The filesystem after `os.makedirs`, and the error it raised, if any. */
  datatype Made = Made(fs: Tree, error: Option<MkdirError>)

  /** `after` keeps every entry of `before` and adds only directories,
      each at a prefix of `p`. */
  predicate Grows(before: Tree, after: Tree, p: string) {
    && (forall q {:trigger q in before} :: q in before ==> q in after && after[q] == before[q])
    && (forall q {:trigger q in after} :: q in after && q !in before ==> after[q] == Directory && |q| <= |p| && q == p[..|q|])
  }

  /** Growing towards a prefix of `p`, then towards `p`, grows towards `p`. */
  lemma GrowsTransitive(a: Tree, b: Tree, c: Tree, head: string, p: string)
    requires Grows(a, b, head) && Grows(b, c, p)
    requires |head| <= |p| && head == p[..|head|]
    ensures Grows(a, c, p)
  {
    forall q | q in c && q !in a
      ensures c[q] == Directory && |q| <= |p| && q == p[..|q|]
    {
      if q !in b {
      } else {
        assert head[..|q|] == p[..|q|];
      }
    }
  }

  /** `mkdir(p)` and its `except OSError` clause: with `exist_ok`, an
      existing directory is no error. */
  function MkdirLast(fs: Tree, p: string, existOk: bool): (r: Made)
    ensures r.error.None? ==> IsDirOrRoot(r.fs, p)
    ensures Grows(fs, r.fs, p)
    ensures r.fs == fs || (!Exists(fs, p) && r.fs == fs[p := Directory])
  {
    match Mkdir(fs, p)
    case Ok(after) => Made(after, None)
    case Err(e) => if existOk && IsDirOrRoot(fs, p) then Made(fs, None) else Made(fs, Some(e))
  }

  /** `os.makedirs(p, exist_ok)`: when the parent part is missing it is made
      first, recursively (a `FileExistsError` from that is ignored), then
      `p` itself. Existing entries are never changed, every new entry is a
      directory whose path is a prefix of `p`, and on success `p` is a
      directory. */
  function MadeTree(fs: Tree, p: string, existOk: bool): (r: Made)
    ensures Grows(fs, r.fs, p)
    ensures r.error.None? ==> IsDirOrRoot(r.fs, p)
    decreases |p|
  {
    var head := SplitPath(p).0;
    if head != [] && SplitPath(p).1 != [] && !Exists(fs, head) then
      var sub := MadeTree(fs, head, existOk);
      if sub.error.Some? && sub.error != Some(FileExists) then
        assert Grows(fs, sub.fs, p) by {
          GrowsTransitive(fs, sub.fs, sub.fs, head, p);
        }
        sub
      else
        var last := MkdirLast(sub.fs, p, existOk);
        assert Grows(fs, last.fs, p) by {
          GrowsTransitive(fs, sub.fs, last.fs, head, p);
        }
        last
    else MkdirLast(fs, p, existOk)
  }

  /** A regular file at `p`, or anything at `p` without `exist_ok`, makes
      `makedirs` raise. */
  lemma MadeTreeFailsOnExisting(fs: Tree, p: string, existOk: bool)
    requires IsFile(fs, p) || (Exists(fs, p) && !existOk)
    ensures MadeTree(fs, p, existOk).error.Some?
  {
    var head := SplitPath(p).0;
    if head != [] && SplitPath(p).1 != [] && !Exists(fs, head) {
      var sub := MadeTree(fs, head, existOk);
      assert p in fs ==> p in sub.fs && sub.fs[p] == fs[p];
    }
  }

  /** In an existing directory (or the root, or the current directory)
      `makedirs` makes just the one directory, as `mkdir` does. */
  lemma MadeTreeInDirectory(fs: Tree, p: string, existOk: bool)
    requires SplitPath(p).1 != [] && (SplitPath(p).0 == [] || IsDirOrRoot(fs, SplitPath(p).0))
    requires !Exists(fs, p)
    ensures MadeTree(fs, p, existOk) == Made(fs[p := Directory], None)
  {
  }

  /** A regular file where the parent should be makes `makedirs` fail and
      change nothing. */
  lemma MadeTreeUnderFile(fs: Tree, p: string, existOk: bool)
    requires SplitPath(p).1 != [] && SplitPath(p).0 != [] && IsFile(fs, SplitPath(p).0) && !Exists(fs, p)
    ensures MadeTree(fs, p, existOk) == Made(fs, Some(NoParentDirectory))
  {
  }

  /** No entry of `fs` is `p` or a prefix of it. */
  predicate NothingOnPath(fs: Tree, p: string) {
    forall q :: q in fs ==> !(|q| <= |p| && q == p[..|q|])
  }

  lemma NothingOnShorterPath(fs: Tree, head: string, p: string)
    requires |head| <= |p| && head == p[..|head|] && NothingOnPath(fs, p)
    ensures NothingOnPath(fs, head)
  {
    forall q | q in fs && |q| <= |head|
      ensures q != head[..|q|]
    {
      assert head[..|q|] == p[..|q|];
    }
  }

  /** `os.makedirs("")` raises and changes nothing. */
  lemma MadeTreeEmptyPath(fs: Tree, p: string, existOk: bool)
    requires p == [] && p !in fs
    ensures MadeTree(fs, p, existOk) == Made(fs, Some(NoParentDirectory))
  {
    SplitEmptyPath(p);
  }

  /** When no entry lies on the way to `p` (no entry is `p` or a prefix of
      it), `makedirs` creates every missing level and succeeds. */
  lemma {:induction false} MadeTreeCreatesMissingParents(fs: Tree, p: string, existOk: bool)
    requires !AllSlashes(p) && NothingOnPath(fs, p)
    ensures MadeTree(fs, p, existOk).error.None?
    ensures IsDir(MadeTree(fs, p, existOk).fs, p)
    decreases |p|
  {
    var head := SplitPath(p).0;
    assert SplitPath(p).1 != [];
    if head != [] && !Exists(fs, head) {
      assert !AllSlashes(head);
      NothingOnShorterPath(fs, head, p);
      MadeTreeCreatesMissingParents(fs, head, existOk);
      MadeAfterParent(fs, p, existOk);
    } else if head != [] {
      assert head !in fs by {
        assert head == p[..|head|];
      }
    }
  }

  /** The last step of `MadeTreeCreatesMissingParents`: once the missing
      parent is made, `p` itself is. */
  lemma MadeAfterParent(fs: Tree, p: string, existOk: bool)
    requires SplitPath(p).0 != [] && SplitPath(p).1 != [] && !Exists(fs, SplitPath(p).0)
    requires !AllSlashes(p) && NothingOnPath(fs, p)
    requires MadeTree(fs, SplitPath(p).0, existOk).error.None?
    requires IsDir(MadeTree(fs, SplitPath(p).0, existOk).fs, SplitPath(p).0)
    ensures MadeTree(fs, p, existOk).error.None?
    ensures IsDir(MadeTree(fs, p, existOk).fs, p)
  {
    var head := SplitPath(p).0;
    var sub := MadeTree(fs, head, existOk);
    assert p !in sub.fs;
    assert Mkdir(sub.fs, p) == Ok(sub.fs[p := Directory]);
    assert MadeTree(fs, p, existOk) == MkdirLast(sub.fs, p, existOk);
  }

  /** `MadeDirs` is `makedirs(p, exist_ok=True)` whenever the directory `p`
      goes in exists. */
  lemma MadeDirsAgrees(fs: Tree, p: string)
    requires SplitPath(p).1 != [] && (SplitPath(p).0 == [] || IsDirOrRoot(fs, SplitPath(p).0))
    requires !AllSlashes(p)
    ensures MadeDirs(fs, p).None? <==> MadeTree(fs, p, true).error.Some?
    ensures MadeDirs(fs, p).Some? ==> MadeDirs(fs, p).value == MadeTree(fs, p, true).fs
  {
  }

  /** The filesystem as mutable state, changed in place by the tools. */
  class FileSystem {
    var entries: Tree

    constructor (initial: Tree)
      ensures entries == initial
    {
      entries := initial;
    }

    method MakeDirs(p: string) returns (ok: bool)
      modifies this
      ensures ok <==> MadeDirs(old(entries), p).Some?
      ensures entries == if ok then MadeDirs(old(entries), p).value else old(entries)
    {
      var made := MadeDirs(entries, p);
      ok := made.Some?;
      if ok {
        entries := made.value;
      }
    }

    method MakeTree(p: string, existOk: bool) returns (err: Option<MkdirError>)
      modifies this
      ensures Made(entries, err) == MadeTree(old(entries), p, existOk)
    {
      var made := MadeTree(entries, p, existOk);
      entries, err := made.fs, made.error;
    }

    method Move(src: string, dst: string) returns (err: Option<MoveError>)
      modifies this
      ensures err.None? <==> Moved(old(entries), src, dst).Ok?
      ensures err.Some? ==> err.value == Moved(old(entries), src, dst).error && entries == old(entries)
      ensures err.None? ==> entries == Moved(old(entries), src, dst).value
    {
      var moved := Moved(entries, src, dst);
      if moved.Ok? {
        entries := moved.value;
        err := None;
      } else {
        err := Some(moved.error);
      }
    }
  }
}
