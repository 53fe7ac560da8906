/** Naming the output workbook and the data sheet from the command-line
    arguments, with Python's os.path.basename and os.path.splitext. */
module Naming {
  import opened Wrappers
  import opened Lines

  /** os.path.basename: the text after the last '/'. */
  function Basename(path: Line): (r: Line)
    ensures '/' !in r
    ensures |r| <= |path| && r == path[|path| - |r|..]
    ensures |r| == |path| || path[|path| - |r| - 1] == '/'
  {
    if path == [] || path[|path| - 1] == '/' then []
    else Basename(path[..|path| - 1]) + [path[|path| - 1]]
  }

  /** The basename of a directory joined with a file name is the file name. */
  lemma {:induction false} BasenameOfJoin(dir: Line, name: Line)
    requires '/' !in name
    ensures Basename(dir + "/" + name) == name
  {
    var p := dir + "/" + name;
    if name != [] {
      var n' := name[..|name| - 1];
      assert p[..|p| - 1] == dir + "/" + n';
      assert p[|p| - 1] == name[|name| - 1];
      BasenameOfJoin(dir, n');
      assert n' + [name[|name| - 1]] == name;
    }
  }

  /** A path with no '/' is its own basename. */
  lemma {:induction false} BasenameOfName(name: Line)
    requires '/' !in name
    ensures Basename(name) == name
  {
    if name != [] {
      var n' := name[..|name| - 1];
      assert name[|name| - 1] in name;
      BasenameOfName(n');
      assert n' + [name[|name| - 1]] == name;
    }
  }

  /** The index of the last occurrence of c in s, or -1: Python's str.rfind. */
  function LastIndex(s: Line, c: char): (r: int)
    ensures -1 <= r < |s|
    ensures r >= 0 ==> s[r] == c
    ensures forall j :: r < j < |s| ==> s[j] != c
  {
    if s == [] then -1
    else if s[|s| - 1] == c then |s| - 1
    else LastIndex(s[..|s| - 1], c)
  }

  predicate AllDots(s: Line) {
    forall i :: 0 <= i < |s| ==> s[i] == '.'
  }

  predicate DotsBetween(s: Line, lo: int, hi: int)
    requires 0 <= lo <= hi <= |s|
  {
    forall i :: lo <= i < hi ==> s[i] == '.'
  }

  /** Where os.path.splitext cuts path: at the last '.' of the last path
      component, unless only dots precede it in that component (leading
      dots never start an extension); |path| when there is no extension. */
  function ExtensionStart(path: Line): (n: nat)
    ensures n <= |path|
    ensures n < |path| ==> path[n] == '.'
    ensures n < |path| ==> forall j :: n < j < |path| ==> path[j] != '.' && path[j] != '/'
    ensures n < |path| ==> !DotsBetween(path, LastIndex(path, '/') + 1, n)
    ensures (exists d :: LastIndex(path, '/') < d < |path| && path[d] == '.' &&
               !DotsBetween(path, LastIndex(path, '/') + 1, d)) ==> n < |path|
  {
    var sep := LastIndex(path, '/');
    var dot := LastIndex(path, '.');
    if dot > sep && !DotsBetween(path, sep + 1, dot) then dot
    else
      NoExtension(path, sep, dot);
      |path|
  }

  /** When the last dot of the path does not start an extension, no dot of
      its last component does: each has only dots before it. */
  lemma NoExtension(path: Line, sep: int, dot: int)
    requires -1 <= sep < |path| && -1 <= dot < |path|
    requires forall j :: dot < j < |path| ==> path[j] != '.'
    requires dot > sep ==> DotsBetween(path, sep + 1, dot)
    ensures forall d :: sep < d < |path| && path[d] == '.' ==> DotsBetween(path, sep + 1, d)
  {
    forall d | sep < d < |path| && path[d] == '.'
      ensures DotsBetween(path, sep + 1, d)
    {
      assert d <= dot;
    }
  }

  /** os.path.splitext(path)[0]: the path without its extension. */
  function SplitextRoot(path: Line): (r: Line)
    ensures r <= path
    ensures |r| < |path| ==> path[|r|] == '.' && '/' !in path[|r|..]
  {
    var n := ExtensionStart(path);
    assert forall j :: 0 <= j < |path| - n ==> path[n..][j] == path[n + j];
    path[..n]
  }

  /** A name with a dot after some non-dot character loses its extension. */
  lemma RootOfExtension(stem: Line, ext: Line)
    requires '/' !in stem && '/' !in ext && '.' !in ext
    requires !AllDots(stem)
    ensures ExtensionStart(stem + "." + ext) == |stem|
    ensures SplitextRoot(stem + "." + ext) == stem
  {
    var p := stem + "." + ext;
    assert p[|stem|] == '.';
    assert forall j :: |stem| < j < |p| ==> p[j] == ext[j - |stem| - 1];
    assert forall j :: 0 <= j < |stem| ==> p[j] == stem[j];
    var sep := LastIndex(p, '/');
    assert sep == -1;
    assert LastIndex(p, '.') == |stem|;
    assert !DotsBetween(p, 0, |stem|);
    assert p[..|stem|] == stem;
  }

  /** A name without any dot has no extension. */
  lemma RootWithoutDot(name: Line)
    requires '.' !in name
    ensures SplitextRoot(name) == name
  {
    var dot := LastIndex(name, '.');
    assert dot == -1;
  }

  /** Leading dots do not start an extension: ".bashrc" stays ".bashrc". */
  lemma RootOfDotfile(dots: Line, name: Line)
    requires AllDots(dots) && '.' !in name && '/' !in name && '/' !in dots
    ensures SplitextRoot(dots + name) == dots + name
  {
    var p := dots + name;
    assert forall j :: |dots| <= j < |p| ==> p[j] == name[j - |dots|];
    assert forall j :: 0 <= j < |dots| ==> p[j] == dots[j];
    var dot := LastIndex(p, '.');
    var sep := LastIndex(p, '/');
    assert dot < |dots|;
    assert sep == -1;
    if dot > sep {
      assert DotsBetween(p, sep + 1, dot);
    }
  }

  /** The default output name: "XLS_" + input basename without extension + ".xls". */
  function DefaultOutputName(input: Line): Line {
    "XLS_" + SplitextRoot(Basename(input)) + ".xls"
  }

  /** The output file name, or None when there are not one or two arguments. */
  function OutputName(args: seq<Line>): (r: Option<Line>)
    ensures r.None? <==> |args| < 1 || |args| > 2
    ensures |args| == 2 ==> r == Some(args[1])
    ensures |args| == 1 ==> r == Some(DefaultOutputName(args[0]))
  {
    if |args| < 1 || |args| > 2 then None
    else if |args| == 2 then Some(args[1])
    else Some(DefaultOutputName(args[0]))
  }

  /** The default name keeps the directory-free stem and swaps the extension. */
  lemma DefaultOutputNameOf(dir: Line, stem: Line, ext: Line)
    requires '/' !in stem && '/' !in ext && '.' !in ext && !AllDots(stem)
    ensures DefaultOutputName(dir + "/" + stem + "." + ext) == "XLS_" + stem + ".xls"
  {
    assert dir + "/" + stem + "." + ext == dir + "/" + (stem + "." + ext);
    BasenameOfJoin(dir, stem + "." + ext);
    RootOfExtension(stem, ext);
  }

  lemma PeaksPieces()
    ensures "peaks.xls" == "peaks" + "." + "xls"
    ensures "XLS_" + "peaks" + ".xls" == "XLS_peaks.xls"
  {
  }

  lemma PeaksCharacters()
    ensures '/' !in "peaks.xls" && '/' !in "peaks" && '/' !in "xls" && '.' !in "xls" && !AllDots("peaks")
  {
    assert "peaks"[0] != '.';
  }

  /** The example from the documentation: "peaks.xls" becomes "XLS_peaks.xls". */
  lemma DefaultOutputNameExample()
    ensures DefaultOutputName("peaks.xls") == "XLS_peaks.xls"
  {
    PeaksPieces();
    PeaksCharacters();
    BasenameOfName("peaks.xls");
    RootOfExtension("peaks", "xls");
  }

  function Min(a: int, b: int): int {
    if a < b then a else b
  }

  /** The data sheet's name: the basename cut to at most 30 characters. */
  function SheetName(input: Line): (r: Line)
    ensures r <= Basename(input)
    ensures |r| == Min(30, |Basename(input)|)
  {
    var b := Basename(input);
    var n := Min(30, |b|);
    assert 0 <= n <= |b|;
    b[..n]
  }
}
