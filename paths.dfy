/** The POSIX path operations the utilities use: `os.path.join`,
    `os.path.basename`, `os.path.splitext`, and the stem taken with
    `name.rsplit(".", 1)[0]`. */
module Paths {
  import opened Text

  /** Index of the last occurrence of `c` in `s`, or -1 (`str.rfind`). */
  function LastIndexOf(s: string, c: char): (r: int)
    ensures -1 <= r < |s|
    ensures r >= 0 ==> s[r] == c
    ensures forall i :: r < i < |s| ==> s[i] != c
  {
    if s == [] then -1
    else if s[|s| - 1] == c then |s| - 1
    else LastIndexOf(s[..|s| - 1], c)
  }

  /** `os.path.join(a, b)` for two components. */
  function JoinPath(a: string, b: string): (r: string)
    ensures StartsWith(b, "/") ==> r == b
    ensures !StartsWith(b, "/") ==> EndsWith(r, b) && StartsWith(r, a)
    ensures !StartsWith(b, "/") ==> |a| + |b| <= |r| <= |a| + |b| + 1
  {
    if StartsWith(b, "/") then b
    else if a == [] || EndsWith(a, "/") then a + b
    else a + "/" + b
  }

  /** `os.path.basename`: everything after the last "/". */
  function Basename(p: string): (r: string)
    ensures '/' !in r
    ensures EndsWith(p, r)
    ensures |r| < |p| ==> p[|p| - |r| - 1] == '/'
  {
    p[LastIndexOf(p, '/') + 1..]
  }

  /** Whether `s` is made of slashes only: the root, however written. */
  predicate AllSlashes(s: string) {
    forall i :: 0 <= i < |s| ==> s[i] == '/'
  }

  /** `s` without its trailing slashes. */
  function TrimTrailingSlashes(s: string): (r: string)
    ensures |r| <= |s| && r == s[..|r|]
    ensures r == [] || r[|r| - 1] != '/'
    ensures r == [] ==> AllSlashes(s)
  {
    if s != [] && s[|s| - 1] == '/' then TrimTrailingSlashes(s[..|s| - 1]) else s
  }

  /** `os.path.dirname`: everything up to the last "/", without trailing
      slashes unless slashes are all there is. */
  function Dirname(p: string): (r: string)
    ensures |r| <= LastIndexOf(p, '/') + 1 && r == p[..|r|]
    ensures AllSlashes(r) || r[|r| - 1] != '/'
  {
    var head := p[..LastIndexOf(p, '/') + 1];
    if AllSlashes(head) then head else TrimTrailingSlashes(head)
  }

  /** `os.path.split` as `os.makedirs` uses it: the directory part and the
      last component, split once more when the path ends in a slash. The
      component is empty only for the root and the empty path, and the
      directory part is a shorter prefix of the path. */
  function SplitPath(p: string): (r: (string, string))
    ensures '/' !in r.1
    ensures r.1 == [] ==> AllSlashes(p)
    ensures r.1 != [] ==> |r.0| < |p| && r.0 == p[..|r.0|]
  {
    if Basename(p) != [] then (Dirname(p), Basename(p))
    else
      var d := Dirname(p);
      assert d == [] || AllSlashes(d) ==> AllSlashes(p);
      (Dirname(d), Basename(d))
  }

  /** The empty path splits into two empty parts. */
  lemma SplitEmptyPath(e: string)
    requires e == []
    ensures SplitPath(e) == (e, e)
  {
    assert LastIndexOf(e, '/') == -1;
    assert e[..0] == e;
  }

  /** Appending text free of `c` does not move the last `c`. */
  lemma {:induction false} LastIndexOfAppend(a: string, b: string, c: char)
    requires c !in b
    ensures LastIndexOf(a + b, c) == LastIndexOf(a, c)
  {
    if b == [] {
      assert a + b == a;
    } else {
      assert (a + b)[..|a + b| - 1] == a + b[..|b| - 1];
      LastIndexOfAppend(a, b[..|b| - 1], c);
    }
  }

  /** A name that does not start with "/" is joined under the directory. */
  lemma JoinStaysUnder(dir: string, name: string)
    requires name == [] || name[0] != '/'
    ensures StartsWith(JoinPath(dir, name), dir)
  {
    assert !StartsWith(name, "/") by {
      if |name| >= 1 {
        assert name[..1][0] == name[0];
      }
    }
  }

  lemma StartsWithTransitive(a: string, b: string, c: string)
    requires StartsWith(a, b) && StartsWith(b, c)
    ensures StartsWith(a, c)
  {
    assert a[..|c|] == b[..|b|][..|c|];
  }

  /** Joining a slash-free name onto a directory gives a path whose
      basename is that name. */
  lemma BasenameOfJoin(dir: string, name: string)
    requires '/' !in name
    ensures Basename(JoinPath(dir, name)) == name
  {
    if |name| >= 1 {
      assert name[0] in name;
    }
    var pre := if dir == [] || EndsWith(dir, "/") then dir else dir + "/";
    assert JoinPath(dir, name) == pre + name;
    LastIndexOfAppend(pre, name, '/');
    if pre != [] {
      assert pre[|pre| - 1] == '/';
      assert LastIndexOf(pre, '/') == |pre| - 1;
    }
    assert (pre + name)[|pre|..] == name;
  }

  /** The directory part of a slash-free name joined onto a directory is
      that directory, less any trailing slashes. */
  lemma DirnameOfJoin(dir: string, name: string)
    requires '/' !in name && !AllSlashes(dir)
    ensures Dirname(JoinPath(dir, name)) == TrimTrailingSlashes(dir)
  {
    if |name| >= 1 {
      assert name[0] in name;
    }
    var pre := if EndsWith(dir, "/") then dir else dir + "/";
    assert JoinPath(dir, name) == pre + name;
    LastIndexOfAppend(pre, name, '/');
    assert pre[|pre| - 1] == '/';
    assert LastIndexOf(pre, '/') == |pre| - 1;
    assert (pre + name)[..|pre|] == pre;
    var i :| 0 <= i < |dir| && dir[i] != '/';
    assert pre[i] != '/';
    if pre != dir {
      assert pre[..|pre| - 1] == dir;
    }
  }

  /** A slash-free name joined onto `dir + "/"` lies under that prefix and
      has `dir` for its directory part. */
  lemma DirnameUnderDirectory(dir: string, name: string)
    requires dir != [] && dir[|dir| - 1] != '/' && '/' !in name
    ensures var p := JoinPath(dir + "/", name);
            StartsWith(p, dir + "/") && Dirname(p) == dir && !AllSlashes(dir)
  {
    if name != [] {
      assert name[0] in name;
    }
    assert !AllSlashes(dir + "/") by {
      assert (dir + "/")[|dir| - 1] != '/';
    }
    DirnameOfJoin(dir + "/", name);
    assert (dir + "/")[..|dir|] == dir;
  }

  /** Joining a slash-free stem and extension onto a directory gives a
      path inside that directory, named by them and ending in the extension. */
  lemma JoinedName(dir: string, stem: string, ext: string)
    requires '/' !in stem && ext != [] && '/' !in ext
    ensures var p := JoinPath(dir, stem + ext);
            EndsWith(p, ext) && StartsWith(p, dir) && Basename(p) == stem + ext
  {
    var name := stem + ext;
    var p := JoinPath(dir, name);
    assert '/' !in name by {
      NotInConcat('/', stem, ext);
    }
    assert !StartsWith(name, "/") by {
      assert name[0] in name;
    }
    assert EndsWith(p, ext) by {
      EndsWithTail(p, stem, ext);
    }
    assert Basename(p) == name by {
      BasenameOfJoin(dir, name);
    }
  }

  /** `name.rsplit(".", 1)[0]`: the text before the last dot, or the whole
      name when it has no dot. */
  function StemBeforeLastDot(name: string): (r: string)
    ensures '.' in name ==> r == name[..LastIndexOf(name, '.')]
    ensures '.' !in name ==> r == name
  {
    var d := LastIndexOf(name, '.');
    if d < 0 then name else name[..d]
  }

  /** The stem of a slash-free name is slash-free. */
  lemma StemHasNoSlash(name: string)
    requires '/' !in name
    ensures '/' !in StemBeforeLastDot(name)
  {
    if '.' in name {
      var d := LastIndexOf(name, '.');
      assert forall i :: 0 <= i < d ==> name[..d][i] == name[i];
    }
  }

  /** True when every character of `p` strictly between `lo` and `hi` is a dot. */
  predicate OnlyDotsBetween(p: string, lo: int, hi: int)
    requires -1 <= lo && hi <= |p|
  {
    forall i :: lo < i < hi ==> p[i] == '.'
  }

  /** `os.path.splitext` (POSIX): the extension starts at the last dot of
      the last component, unless only dots precede that dot in the
      component, in which case there is no extension. */
  function SplitExt(p: string): (r: (string, string))
    ensures r.0 + r.1 == p
    ensures r.1 == [] || (r.1[0] == '.' && '.' !in r.1[1..] && '/' !in r.1)
  {
    var sepIndex := LastIndexOf(p, '/');
    var dotIndex := LastIndexOf(p, '.');
    if dotIndex > sepIndex && !OnlyDotsBetween(p, sepIndex, dotIndex) then
      assert p[..dotIndex] + p[dotIndex..] == p;
      (p[..dotIndex], p[dotIndex..])
    else
      (p, "")
  }

  /** On a slash-free file name the two naming rules agree exactly when the
      name is not a dot-file whose only dots lead it (".wav", "..flac", "."):
      for those, rsplit yields the leading dots alone while splitext keeps
      the whole name as the root. */
  lemma StemAgreesWithSplitExtUnlessDotFile(name: string)
    requires '/' !in name
    ensures var d := LastIndexOf(name, '.');
            StemBeforeLastDot(name) == SplitExt(name).0
            <==> (d < 0 || !OnlyDotsBetween(name, -1, d))
  {
    var d := LastIndexOf(name, '.');
    assert LastIndexOf(name, '/') == -1;
    if d >= 0 && OnlyDotsBetween(name, -1, d) {
      assert |StemBeforeLastDot(name)| == d < |name| == |SplitExt(name).0|;
    }
  }

  /** The dot-file case spelt out: ".wav" has an empty stem but no extension. */
  lemma DotFileNaming(rest: string)
    requires rest != [] && '.' !in rest && '/' !in rest
    ensures StemBeforeLastDot("." + rest) == ""
    ensures SplitExt("." + rest) == ("." + rest, "")
  {
    var name := "." + rest;
    assert name[0] == '.' && name[1..] == rest;
    assert LastIndexOf(name, '.') == 0;
    assert LastIndexOf(name, '/') == -1;
  }
}
