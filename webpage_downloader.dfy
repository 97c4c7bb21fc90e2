/** `webpage_downloader.py`: checks the URL's scheme, makes sure the
    output directory exists, derives a file name from the URL, fetches the
    page and writes it to that file. */
module WebpageDownloader {
  import opened Wrappers
  import opened Text
  import opened Paths
  import opened Storage

  /** The scheme check: the URL starts with "http://" or "https://". */
  predicate HasWebScheme(url: string)
    ensures HasWebScheme(url) ==> |url| >= 7 && url[..4] == "http"
  {
    StartsWith(url, "http://") || StartsWith(url, "https://")
  }

  /** `s.replace("/", "_").replace(":", "_")`. */
  function Sanitised(s: string): (r: string)
    ensures |r| == |s|
    ensures '/' !in r && ':' !in r
    ensures forall i :: 0 <= i < |s| && s[i] != '/' && s[i] != ':' ==> r[i] == s[i]
    ensures forall i :: 0 <= i < |s| && (s[i] == '/' || s[i] == ':') ==> r[i] == '_'
  {
    var r := ReplaceChar(ReplaceChar(s, '/', '_'), ':', '_');
    assert forall i :: 0 <= i < |r| ==> r[i] != '/' && r[i] != ':';
    r
  }

  /** The file name: the last piece of `url.split("//")`, sanitised, plus
      ".html". */
  function FileNameFor(url: string): (r: string)
    ensures '/' !in r && ':' !in r
    ensures EndsWith(r, ".html")
  {
    var pieces := Split(url, "//");
    var name := Sanitised(pieces[|pieces| - 1]) + ".html";
    assert name[|name| - 5..] == ".html";
    name
  }

  /** For a URL "scheme://rest" in which "//" occurs nowhere in `rest`, the
      file name is `rest` sanitised, plus ".html". */
  lemma FileNameOfPlainUrl(scheme: string, rest: string)
    requires scheme == "http:" || scheme == "https:"
    requires !Occurs(rest, "//")
    ensures FileNameFor(scheme + "//" + rest) == Sanitised(rest) + ".html"
  {
    SplitAfterHead(scheme, "//", rest);
    SplitWithoutOccurrence(rest, "//");
  }

  /** The split is left to right and non-overlapping, so a run of three
      slashes leaves one slash in the last piece: "http://host///page" is
      saved as "_page.html", not as "page.html". */
  lemma TripleSlashKeepsOneSlash(host: string, page: string)
    requires host != [] && '/' !in host && '/' !in page
    ensures FileNameFor("http://" + host + "///" + page) == "_" + Sanitised(page) + ".html"
  {
    var tail := "/" + page;
    var url := "http://" + host + "///" + page;
    assert Split(url, "//") == ["http:", host, tail] by {
      assert url == "http:" + "//" + (host + "//" + tail);
      SplitAfterHead("http:", "//", host + "//" + tail);
      SplitAfterHead(host, "//", tail);
      SlashThenSlashFree(page);
      SplitWithoutOccurrence(tail, "//");
    }
    assert Sanitised(tail) == "_" + Sanitised(page);
  }

  /** One slash before a slash-free text never makes a "//". */
  lemma SlashThenSlashFree(page: string)
    requires '/' !in page
    ensures !Occurs("/" + page, "//")
  {
    var tail := "/" + page;
    forall i: nat | i <= |tail| ensures !OccursAt(tail, "//", i) {
      if i + 2 <= |tail| {
        assert tail[i + 1] == page[i];
      }
    }
  }

  /** Why `download_webpage` raised. */
  datatype DownloadError =
    | BadScheme          // ValueError, before anything is touched
    | OutputUncreatable  // os.makedirs raised
    | FetchFailed        // HTTPError or URLError, reported as RuntimeError
    | SaveFailed         // the file could not be opened for writing

  /** The filesystem once the output directory has been seen to, and
      whether `os.makedirs` raised: an existing entry is left as it is,
      a missing one is made with its parents. */
  function OutputReady(fs: Tree, outputDir: string): (r: Made)
    ensures Exists(fs, outputDir) ==> r == Made(fs, None)
    ensures Grows(fs, r.fs, outputDir)
    ensures !Exists(fs, outputDir) && r.error.None? ==> IsDirOrRoot(r.fs, outputDir)
  {
    if Exists(fs, outputDir) then Made(fs, None) else MadeTree(fs, outputDir, false)
  }

  /** `download_webpage` on the live filesystem. The page is what the
      server returned (or `None` when fetching failed); a written file is
      recorded with the length of the page's text. */
  method DownloadWebpage(disk: FileSystem, url: string, outputDir: string, page: Option<string>)
    returns (err: Option<DownloadError>)
    modifies disk
    ensures !HasWebScheme(url) ==> err == Some(BadScheme) && disk.entries == old(disk.entries)
    ensures HasWebScheme(url) && OutputReady(old(disk.entries), outputDir).error.Some? ==>
              err == Some(OutputUncreatable) && disk.entries == OutputReady(old(disk.entries), outputDir).fs
    ensures HasWebScheme(url) && OutputReady(old(disk.entries), outputDir).error.None? ==>
              var ready := OutputReady(old(disk.entries), outputDir).fs;
              var path := JoinPath(outputDir, FileNameFor(url));
              && (page.None? ==> err == Some(FetchFailed) && disk.entries == ready)
              && (page.Some? && (!IsDirOrRoot(ready, outputDir) || IsDir(ready, path)) ==>
                    err == Some(SaveFailed) && disk.entries == ready)
              && (page.Some? && IsDirOrRoot(ready, outputDir) && !IsDir(ready, path) ==>
                    err.None? && disk.entries == ready[path := File(|page.value|)])
  {
    if !HasWebScheme(url) {
      return Some(BadScheme);
    }
    if !Exists(disk.entries, outputDir) {
      var made := disk.MakeTree(outputDir, false);
      if made.Some? {
        return Some(OutputUncreatable);
      }
    }
    var path := JoinPath(outputDir, FileNameFor(url));
    if page.None? {
      return Some(FetchFailed);
    }
    if !IsDirOrRoot(disk.entries, outputDir) || IsDir(disk.entries, path) {
      return Some(SaveFailed);
    }
    disk.entries := disk.entries[path := File(|page.value|)];
    err := None;
  }

  /** An output directory that is missing, along with its parents, is
      made before the page is saved into it. */
  lemma MissingOutputDirIsMade(fs: Tree, outputDir: string)
    requires !AllSlashes(outputDir) && NothingOnPath(fs, outputDir)
    ensures OutputReady(fs, outputDir).error.None?
    ensures IsDir(OutputReady(fs, outputDir).fs, outputDir)
  {
    MadeTreeCreatesMissingParents(fs, outputDir, false);
  }

  /** The script's answers: the URL stripped, and the directory stripped
      with "." for an empty answer. */
  function Answers(urlAnswer: string, dirAnswer: string): (r: (string, string))
    ensures r.0 == Strip(urlAnswer)
    ensures Strip(dirAnswer) == "" ==> r.1 == "."
    ensures Strip(dirAnswer) != "" ==> r.1 == Strip(dirAnswer)
  {
    (Strip(urlAnswer), if Strip(dirAnswer) == "" then "." else Strip(dirAnswer))
  }
}
