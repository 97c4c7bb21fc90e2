/** `disk_usage_analyser.py`: lists a directory, sizes each item (files
    directly, sub-directories by walking everything beneath them), sorts
    the items by size, largest first, and reports the total. */
module DiskUsageAnalyser {
  import opened Wrappers
  import opened Text

  /** What is on disk at a path. A file's size is `None` when asking for
      it raises `OSError`; a directory may refuse to be listed. */
  datatype Node =
    | File(size: Option<nat>)
    | Folder(readable: bool, children: seq<Child>)

  datatype Child = Child(name: string, node: Node)

  /** `get_file_size`: the size, or 0 when it cannot be read. */
  function FileSize(size: Option<nat>): (r: nat)
    ensures size.Some? ==> r == size.value
    ensures size.None? ==> r == 0
  {
    match size
    case Some(n) => n
    case None => 0
  }

  // ---------------------------------------------------------------------
  // The size of a tree, and the walk that computes it
  // ---------------------------------------------------------------------

  /** The bytes beneath a node: a file's own size, and for a directory the
      sum over its children; an unlistable directory contributes nothing. */
  function Size(n: Node): (r: nat)
    ensures n.Folder? && n.readable ==> forall k :: 0 <= k < |n.children| ==> Size(n.children[k].node) <= r
  {
    match n
    case File(size) => FileSize(size)
    case Folder(readable, children) => if readable then ChildrenSize(children) else 0
  }

  function ChildrenSize(cs: seq<Child>): (r: nat)
    ensures forall k :: 0 <= k < |cs| ==> Size(cs[k].node) <= r
  {
    if cs == [] then 0 else Size(cs[0].node) + ChildrenSize(cs[1..])
  }

  /** The file sizes `os.walk` reports for one directory: its non-directory
      children, in listing order. */
  function FilesOf(cs: seq<Child>): seq<Option<nat>> {
    if cs == [] then []
    else (if cs[0].node.File? then [cs[0].node.size] else []) + FilesOf(cs[1..])
  }

  /** The `filenames` lists `os.walk` yields, top-down: a directory's own
      files, then each sub-directory's walk in listing order. Errors from
      listing a directory are ignored, so an unlistable directory (and
      everything below it) yields nothing; so does a file. */
  function Walk(n: Node): (r: seq<seq<Option<nat>>>)
    ensures n.Folder? && n.readable ==> |r| >= 1 && r[0] == FilesOf(n.children)
    ensures !(n.Folder? && n.readable) ==> r == []
  {
    match n
    case File(_) => []
    case Folder(readable, cs) => if readable then [FilesOf(cs)] + WalkChildren(cs) else []
  }

  function WalkChildren(cs: seq<Child>): seq<seq<Option<nat>>> {
    if cs == [] then [] else Walk(cs[0].node) + WalkChildren(cs[1..])
  }

  /** The sum of `get_file_size` over a list of file sizes. */
  function SumSizes(s: seq<Option<nat>>): nat {
    if s == [] then 0 else SumSizes(s[..|s| - 1]) + FileSize(s[|s| - 1])
  }

  /** The sum of `get_file_size` over a whole walk. */
  function WalkTotal(w: seq<seq<Option<nat>>>): nat {
    if w == [] then 0 else WalkTotal(w[..|w| - 1]) + SumSizes(w[|w| - 1])
  }

  lemma {:induction false} SumSizesAppend(a: seq<Option<nat>>, b: seq<Option<nat>>)
    ensures SumSizes(a + b) == SumSizes(a) + SumSizes(b)
    decreases |b|
  {
    if b == [] {
      assert a + b == a;
    } else {
      assert (a + b)[..|a + b| - 1] == a + b[..|b| - 1];
      SumSizesAppend(a, b[..|b| - 1]);
    }
  }

  lemma {:induction false} WalkTotalAppend(a: seq<seq<Option<nat>>>, b: seq<seq<Option<nat>>>)
    ensures WalkTotal(a + b) == WalkTotal(a) + WalkTotal(b)
    decreases |b|
  {
    if b == [] {
      assert a + b == a;
    } else {
      assert (a + b)[..|a + b| - 1] == a + b[..|b| - 1];
      WalkTotalAppend(a, b[..|b| - 1]);
    }
  }

  /** Summing what the walk reports gives the size of the directory: every
      file at any depth beneath it, counted once. */
  lemma {:induction false} WalkTotalIsSize(n: Node)
    requires n.Folder?
    ensures WalkTotal(Walk(n)) == Size(n)
    decreases n, 1
  {
    if n.readable {
      WalkTotalAppend([FilesOf(n.children)], WalkChildren(n.children));
      assert WalkTotal([FilesOf(n.children)]) == SumSizes(FilesOf(n.children)) by {
        assert [FilesOf(n.children)][..0] == [];
      }
      ChildrenWalkTotal(n.children);
    }
  }

  lemma {:induction false} ChildrenWalkTotal(cs: seq<Child>)
    ensures SumSizes(FilesOf(cs)) + WalkTotal(WalkChildren(cs)) == ChildrenSize(cs)
    decreases cs, 0
  {
    if cs != [] {
      var first := cs[0].node;
      var own := if first.File? then [first.size] else [];
      SumSizesAppend(own, FilesOf(cs[1..]));
      WalkTotalAppend(Walk(first), WalkChildren(cs[1..]));
      ChildrenWalkTotal(cs[1..]);
      if first.File? {
        assert SumSizes(own) == FileSize(first.size) by {
          assert own[..0] == [];
        }
      } else {
        assert cs[0] in cs;
        WalkTotalIsSize(first);
      }
    }
  }

  /** `get_folder_size`: adds up `get_file_size` over every file name the
      walk yields. Walking a file yields nothing. */
  method GetFolderSize(n: Node) returns (total: nat)
    ensures n.Folder? ==> total == Size(n)
    ensures n.File? ==> total == 0
  {
    var walk := Walk(n);
    total := 0;
    var i := 0;
    while i < |walk|
      invariant 0 <= i <= |walk|
      invariant total == WalkTotal(walk[..i])
    {
      var files := walk[i];
      var j := 0;
      while j < |files|
        invariant 0 <= j <= |files|
        invariant total == WalkTotal(walk[..i]) + SumSizes(files[..j])
      {
        assert files[..j + 1][..j] == files[..j];
        total := total + FileSize(files[j]);
        j := j + 1;
      }
      assert files[..j] == files;
      assert walk[..i + 1][..i] == walk[..i];
      i := i + 1;
    }
    assert walk[..i] == walk;
    if n.Folder? {
      WalkTotalIsSize(n);
    }
  }

  // ---------------------------------------------------------------------
  // Ordering the report
  // ---------------------------------------------------------------------

  /** One line of the report: an item of the directory and its size. */
  datatype Usage = Usage(name: string, size: nat)

  predicate NonIncreasing(s: seq<Usage>) {
    forall i, j :: 0 <= i < j < |s| ==> s[i].size >= s[j].size
  }

  /** The items of `s` of size `v`, in their order in `s`. */
  function OfSize(s: seq<Usage>, v: nat): seq<Usage> {
    if s == [] then []
    else OfSize(s[..|s| - 1], v) + (if s[|s| - 1].size == v then [s[|s| - 1]] else [])
  }

  /** `x` placed after every trailing item at least as large: the step of
      a stable insertion sort by non-increasing size. */
  function Insert(s: seq<Usage>, x: Usage): seq<Usage> {
    if s == [] || s[|s| - 1].size >= x.size then s + [x]
    else Insert(s[..|s| - 1], x) + [s[|s| - 1]]
  }

  /** `list.sort(key=size, reverse=True)`: Python's sort is stable, also
      when reversed, so equal sizes keep their listing order. */
  function SortBySize(s: seq<Usage>): (r: seq<Usage>)
    ensures |r| == |s|
  {
    if s == [] then []
    else
      var sorted := SortBySize(s[..|s| - 1]);
      InsertPermutes(sorted, s[|s| - 1]);
      assert |multiset(Insert(sorted, s[|s| - 1]))| == |multiset(sorted)| + 1;
      Insert(sorted, s[|s| - 1])
  }

  lemma {:induction false} InsertPermutes(s: seq<Usage>, x: Usage)
    ensures multiset(Insert(s, x)) == multiset(s) + multiset{x}
    decreases |s|
  {
    if s != [] && s[|s| - 1].size < x.size {
      InsertPermutes(s[..|s| - 1], x);
      assert s == s[..|s| - 1] + [s[|s| - 1]];
    }
  }

  lemma {:induction false} InsertKeepsOrder(s: seq<Usage>, x: Usage)
    requires NonIncreasing(s)
    ensures NonIncreasing(Insert(s, x))
    ensures |Insert(s, x)| == |s| + 1
    ensures forall k :: 0 <= k < |Insert(s, x)| ==> Insert(s, x)[k] == x || Insert(s, x)[k] in s
    decreases |s|
  {
    if s != [] && s[|s| - 1].size < x.size {
      var init := s[..|s| - 1];
      var last := s[|s| - 1];
      InsertKeepsOrder(init, x);
      var r := Insert(init, x);
      forall k | 0 <= k < |r| ensures r[k].size >= last.size {
        if r[k] != x {
          assert r[k] in init;
          var m :| 0 <= m < |init| && init[m] == r[k];
          assert s[m] == init[m];
        }
      }
      forall k | 0 <= k < |r| ensures r[k] == x || r[k] in s {
        if r[k] != x {
          assert r[k] in init;
        }
      }
    }
  }

  lemma {:induction false} InsertOfSize(s: seq<Usage>, x: Usage, v: nat)
    ensures OfSize(Insert(s, x), v) == OfSize(s, v) + (if x.size == v then [x] else [])
    decreases |s|
  {
    if s == [] || s[|s| - 1].size >= x.size {
      assert (s + [x])[..|s + [x]| - 1] == s;
    } else {
      var init := s[..|s| - 1];
      var last := s[|s| - 1];
      InsertOfSize(init, x, v);
      var r := Insert(init, x) + [last];
      assert r[..|r| - 1] == Insert(init, x);
    }
  }

  /** The report is ordered largest first. */
  lemma {:induction false} SortedBySize(s: seq<Usage>)
    ensures NonIncreasing(SortBySize(s))
    ensures |SortBySize(s)| == |s|
    decreases |s|
  {
    if s != [] {
      SortedBySize(s[..|s| - 1]);
      InsertKeepsOrder(SortBySize(s[..|s| - 1]), s[|s| - 1]);
    }
  }

  /** Sorting neither drops nor duplicates an item. */
  lemma {:induction false} SortPermutes(s: seq<Usage>)
    ensures multiset(SortBySize(s)) == multiset(s)
    decreases |s|
  {
    if s != [] {
      SortPermutes(s[..|s| - 1]);
      InsertPermutes(SortBySize(s[..|s| - 1]), s[|s| - 1]);
      assert s == s[..|s| - 1] + [s[|s| - 1]];
    }
  }

  /** Stability: the items of any one size appear in listing order. */
  lemma {:induction false} SortIsStable(s: seq<Usage>, v: nat)
    ensures OfSize(SortBySize(s), v) == OfSize(s, v)
    decreases |s|
  {
    if s != [] {
      SortIsStable(s[..|s| - 1], v);
      InsertOfSize(SortBySize(s[..|s| - 1]), s[|s| - 1], v);
    }
  }

  /** Inserting into a prefix that ends with an item at least as large
      appends. */
  lemma InsertStops(s: seq<Usage>, j: nat, x: Usage)
    requires j <= |s| && (j == 0 || s[j - 1].size >= x.size)
    ensures Insert(s[..j], x) == s[..j] + [x]
  {
  }

  /** Inserting past a smaller last item moves that item behind `x`. */
  lemma InsertShifts(s: seq<Usage>, j: nat, x: Usage)
    requires 0 < j <= |s| && s[j - 1].size < x.size
    ensures Insert(s[..j], x) + s[j..] == Insert(s[..j - 1], x) + s[j - 1..]
  {
    assert s[..j][..j - 1] == s[..j - 1];
    assert s[j - 1..] == [s[j - 1]] + s[j..];
  }

  /** The array during `InsertInPlace`: the sorted prefix with a hole at
      `j`, followed by the untouched rest. */
  function Layout(sorted: seq<Usage>, j: nat, hole: Usage, tail: seq<Usage>): (r: seq<Usage>)
    requires j <= |sorted|
    ensures |r| == |sorted| + 1 + |tail| && r[j] == hole
    ensures r[..|sorted| + 1] == sorted[..j] + [hole] + sorted[j..] && r[|sorted| + 1..] == tail
  {
    var r := sorted[..j] + [hole] + sorted[j..] + tail;
    assert r[..|sorted| + 1] == sorted[..j] + [hole] + sorted[j..];
    r
  }

  /** Copying the item left of the hole into it moves the hole one place
      left. */
  lemma ShiftLayout(sorted: seq<Usage>, j: nat, hole: Usage, tail: seq<Usage>)
    requires 0 < j <= |sorted|
    ensures Layout(sorted, j, hole, tail)[j - 1] == sorted[j - 1]
    ensures Layout(sorted, j, hole, tail)[j := sorted[j - 1]] == Layout(sorted, j - 1, sorted[j - 1], tail)
  {
    assert sorted[..j] == sorted[..j - 1] + [sorted[j - 1]];
    assert sorted[j - 1..] == [sorted[j - 1]] + sorted[j..];
  }

  /** Writing into the hole changes only the hole. */
  lemma FillLayout(sorted: seq<Usage>, j: nat, hole: Usage, tail: seq<Usage>, x: Usage)
    requires j <= |sorted|
    ensures Layout(sorted, j, hole, tail)[j := x] == Layout(sorted, j, x, tail)
  {
  }

  /** One step of the in-place insertion sort: `a[i]` is inserted into
      the sorted prefix `a[..i]` by shifting smaller items one place right. */
  method InsertInPlace(a: array<Usage>, i: nat)
    requires i < a.Length
    modifies a
    ensures a[..i + 1] == Insert(old(a[..i]), old(a[i]))
    ensures a[i + 1..] == old(a[i + 1..])
  {
    var x := a[i];
    ghost var sorted, tail := a[..i], a[i + 1..];
    assert a[..] == Layout(sorted, i, x, tail) by {
      assert a[..] == a[..i] + [a[i]] + a[i + 1..];
    }
    assert sorted[..i] == sorted && sorted[i..] == [];
    var j := i;
    while j > 0 && a[j - 1].size < x.size
      invariant 0 <= j <= i
      invariant a[..] == Layout(sorted, j, a[j], tail)
      invariant Insert(sorted, x) == Insert(sorted[..j], x) + sorted[j..]
    {
      InsertShifts(sorted, j, x);
      ShiftLayout(sorted, j, a[j], tail);
      a[j] := a[j - 1];
      j := j - 1;
    }
    InsertStops(sorted, j, x);
    FillLayout(sorted, j, a[j], tail, x);
    a[j] := x;
    assert a[..i + 1] == a[..][..i + 1];
  }

  /** Sorting one more item of the listing inserts it into the sorted
      prefix. */
  lemma SortStep(s: seq<Usage>, i: nat)
    requires i < |s|
    ensures SortBySize(s[..i + 1]) == Insert(SortBySize(s[..i]), s[i])
  {
    assert s[..i + 1][..i] == s[..i];
  }

  /** `folder_sizes.sort(key=lambda x: x[1], reverse=True)` on the array
      of report lines. */
  method SortInPlace(a: array<Usage>)
    modifies a
    ensures a[..] == SortBySize(old(a[..]))
  {
    ghost var orig := a[..];
    var i := 0;
    while i < a.Length
      invariant 0 <= i <= a.Length
      invariant a[..i] == SortBySize(orig[..i])
      invariant a[i..] == orig[i..]
    {
      ghost var before := a[..];
      assert before[i] == orig[i] by { assert a[i..][0] == orig[i..][0]; }
      assert before[i + 1..] == orig[i + 1..] by { assert before[i + 1..] == before[i..][1..]; }
      InsertInPlace(a, i);
      SortStep(orig, i);
      assert a[..i + 1] == SortBySize(orig[..i + 1]);
      i := i + 1;
    }
    assert a[..] == a[..a.Length];
    assert orig[..a.Length] == orig;
  }

  // ---------------------------------------------------------------------
  // The analysis
  // ---------------------------------------------------------------------

  /** One report line per listed item, sized recursively for directories
      and directly otherwise. */
  function Usages(cs: seq<Child>): (r: seq<Usage>)
    ensures |r| == |cs|
    ensures forall k :: 0 <= k < |cs| ==> r[k] == Usage(cs[k].name, Size(cs[k].node))
  {
    if cs == [] then [] else [Usage(cs[0].name, Size(cs[0].node))] + Usages(cs[1..])
  }

  function TotalOf(s: seq<Usage>): nat {
    if s == [] then 0 else TotalOf(s[..|s| - 1]) + s[|s| - 1].size
  }

  lemma {:induction false} TotalOfAppend(a: seq<Usage>, b: seq<Usage>)
    ensures TotalOf(a + b) == TotalOf(a) + TotalOf(b)
    decreases |b|
  {
    if b == [] {
      assert a + b == a;
    } else {
      assert (a + b)[..|a + b| - 1] == a + b[..|b| - 1];
      TotalOfAppend(a, b[..|b| - 1]);
    }
  }

  lemma {:induction false} InsertTotal(s: seq<Usage>, x: Usage)
    ensures TotalOf(Insert(s, x)) == TotalOf(s) + x.size
    decreases |s|
  {
    if s != [] && s[|s| - 1].size < x.size {
      InsertTotal(s[..|s| - 1], x);
    }
  }

  /** Sorting does not change the total of the report. */
  lemma {:induction false} SortKeepsTotal(s: seq<Usage>)
    ensures TotalOf(SortBySize(s)) == TotalOf(s)
    decreases |s|
  {
    if s != [] {
      SortKeepsTotal(s[..|s| - 1]);
      InsertTotal(SortBySize(s[..|s| - 1]), s[|s| - 1]);
    }
  }

  /** The total of the report lines is the size of the directory. */
  lemma {:induction false} UsagesTotal(cs: seq<Child>)
    ensures TotalOf(Usages(cs)) == ChildrenSize(cs)
    decreases |cs|
  {
    if cs != [] {
      TotalOfAppend([Usage(cs[0].name, Size(cs[0].node))], Usages(cs[1..]));
      UsagesTotal(cs[1..]);
      assert [Usage(cs[0].name, Size(cs[0].node))][..0] == [];
    }
  }

  /** How `analyze_disk_usage` ended: `listdir` raised `PermissionError` or
      `FileNotFoundError` (reported, nothing listed), `NotADirectoryError`
      (not caught), or the report was produced. */
  datatype Analysis =
    | PermissionDenied
    | DirectoryNotFound
    | NotADirectory
    | Report(usage: seq<Usage>, total: nat)

  /** `analyze_disk_usage` on what is found at the chosen path. */
  method AnalyzeDiskUsage(target: Option<Node>) returns (r: Analysis)
    ensures target.None? ==> r == DirectoryNotFound
    ensures target.Some? && target.value.File? ==> r == NotADirectory
    ensures target.Some? && target.value.Folder? && !target.value.readable ==> r == PermissionDenied
    ensures target.Some? && target.value.Folder? && target.value.readable ==>
              r == Report(SortBySize(Usages(target.value.children)), TotalOf(Usages(target.value.children)))
  {
    if target.None? {
      return DirectoryNotFound;
    }
    var dir := target.value;
    if dir.File? {
      return NotADirectory;
    }
    if !dir.readable {
      return PermissionDenied;
    }
    var items := dir.children;
    var total := 0;
    var usage: seq<Usage> := [];
    var k := 0;
    while k < |items|
      invariant 0 <= k <= |items| && |usage| == k
      invariant forall m :: 0 <= m < k ==> usage[m] == Usage(items[m].name, Size(items[m].node))
      invariant total == TotalOf(usage)
    {
      var size: nat;
      if items[k].node.Folder? {
        size := GetFolderSize(items[k].node);
      } else {
        size := FileSize(items[k].node.size);
      }
      assert (usage + [Usage(items[k].name, size)])[..k] == usage;
      usage := usage + [Usage(items[k].name, size)];
      total := total + size;
      k := k + 1;
    }
    assert usage == Usages(items);
    var a := new Usage[|usage|](n requires 0 <= n < |usage| => usage[n]);
    assert a[..] == usage;
    SortInPlace(a);
    r := Report(a[..], total);
  }

  /** The report's total equals the sum of its lines and the size of the
      directory; its lines are the listed items, largest first. */
  lemma ReportIsConsistent(cs: seq<Child>)
    ensures var report := SortBySize(Usages(cs));
            && TotalOf(report) == TotalOf(Usages(cs)) == ChildrenSize(cs)
            && NonIncreasing(report)
            && multiset(report) == multiset(Usages(cs))
  {
    SortKeepsTotal(Usages(cs));
    UsagesTotal(cs);
    SortedBySize(Usages(cs));
    SortPermutes(Usages(cs));
  }

  /** `main`: the stripped answer, or "." when it is empty. */
  function DirectoryToAnalyse(answer: string): (r: string)
    ensures Strip(answer) == "" ==> r == "."
    ensures Strip(answer) != "" ==> r == Strip(answer)
  {
    var d := Strip(answer);
    if d == "" then "." else d
  }
}
