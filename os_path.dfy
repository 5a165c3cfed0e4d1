/** The three path operations `start_processing` uses to name an output file:
    `os.path.basename`, the stem half of `os.path.splitext`, and
    `os.path.join`, with POSIX rules ('/' is the only separator). */
module OsPath {

  /** Suffix that replaces every base image's extension. */
  const OutputSuffix: string := "_with_overlay.png"

  /** `s.rfind(c)`: the last index of `c` in `s`, or -1. */
  function LastIndexOf(s: string, c: char): (i: int)
    ensures -1 <= i < |s|
    ensures i >= 0 ==> s[i] == c
    ensures forall j :: i < j < |s| ==> s[j] != c
  {
    if s == [] then -1
    else if s[|s| - 1] == c then |s| - 1
    else
      var i := LastIndexOf(s[..|s| - 1], c);
      assert forall j :: i < j < |s| - 1 ==> s[j] == s[..|s| - 1][j];
      i
  }

  /** `basename(p)`: everything after the last '/'. */
  function BaseName(path: string): string {
    path[LastIndexOf(path, '/') + 1..]
  }

  /** The base name is the last component of the path: a suffix holding no
      '/', which is either the whole path or follows a '/'. */
  lemma BaseNameIsLastComponent(path: string)
    ensures var name := BaseName(path);
      && '/' !in name
      && |name| <= |path| && path[|path| - |name|..] == name
      && (name == path || path[|path| - |name| - 1] == '/')
  {
  }

  /** `splitext(name)[0]` for a '/'-free name (a base name, the only kind it
      is applied to): the text before the last '.', unless every
      character before that dot is itself a dot (a leading-dot name such as
      ".png" has no extension), in which case the whole name. */
  function Stem(name: string): (stem: string)
    ensures |stem| <= |name| && name[..|stem|] == stem
  {
    var dot := LastIndexOf(name, '.');
    if HasNonDot(name, dot) then name[..dot] else name
  }

  /** Some character of `name` before index `end` is not a dot. */
  predicate HasNonDot(name: string, end: int)
    requires end <= |name|
  {
    exists k :: 0 <= k < end && name[k] != '.'
  }

  /** `join(dir, name)` for two components. */
  function Join(dir: string, name: string): (path: string)
    ensures name != [] && name[0] == '/' ==> path == name
  {
    if name != [] && name[0] == '/' then name
    else if dir == [] || dir[|dir| - 1] == '/' then dir + name
    else dir + "/" + name
  }

  /** `f"{filename}_with_overlay.png"` where `filename` is the stem of the base name. */
  function OutputName(path: string): string {
    Stem(BaseName(path)) + OutputSuffix
  }

  /** The output path of the base image at `path` in directory `outputDir`. */
  function OutputPath(outputDir: string, path: string): string {
    Join(outputDir, OutputName(path))
  }

  /** The output file name holds no '/', and is the stem of the base name
      followed by "_with_overlay.png". */
  lemma OutputNameShape(path: string)
    ensures var name := OutputName(path);
      && '/' !in name
      && |name| >= |OutputSuffix|
      && name[|name| - |OutputSuffix|..] == OutputSuffix
      && name[..|name| - |OutputSuffix|] == Stem(BaseName(path))
  {
    StemOfBaseNameHasNoSlash(path);
    var stem := Stem(BaseName(path));
    assert '/' !in OutputSuffix;
    assert OutputName(path) == stem + OutputSuffix;
  }

  /** The stem of a base name, a prefix of it, holds no '/' either. */
  lemma StemOfBaseNameHasNoSlash(path: string)
    ensures '/' !in Stem(BaseName(path))
  {
    var base := BaseName(path);
    var stem := Stem(base);
    BaseNameIsLastComponent(path);
    forall k | 0 <= k < |stem| ensures stem[k] != '/' {
      assert stem[k] == base[k];
    }
  }

  /** The output file lands directly in `outputDir`: one '/' is added
      between them unless the directory already ends with one. */
  lemma OutputPathInDir(outputDir: string, path: string)
    requires outputDir != []
    ensures if outputDir[|outputDir| - 1] == '/' then OutputPath(outputDir, path) == outputDir + OutputName(path)
            else OutputPath(outputDir, path) == outputDir + "/" + OutputName(path)
  {
    var name := OutputName(path);
    OutputNameShape(path);
    assert name[0] in name;
    JoinRelative(outputDir, name);
  }

  /** Joining a directory and a relative name keeps the directory and adds
      one '/' between them unless the directory already ends with one. */
  lemma JoinRelative(dir: string, name: string)
    requires dir != [] && name != [] && name[0] != '/'
    ensures if dir[|dir| - 1] == '/' then Join(dir, name) == dir + name
            else Join(dir, name) == dir + "/" + name
  {
  }

  /** The last index of `c` in `a + b` when `c` occurs in `b`. */
  lemma LastIndexOfInSuffix(a: string, b: string, c: char)
    requires c in b
    ensures LastIndexOf(a + b, c) == |a| + LastIndexOf(b, c)
  {
    var s := a + b;
    var i, j := LastIndexOf(s, c), LastIndexOf(b, c);
    assert s[|a| + j] == c;
  }

  /** The extension is always discarded: a file `stem.ext` in any directory,
      where `ext` holds no dot and `stem` is not made of dots only, is
      written as `stem_with_overlay.png`. */
  lemma ExtensionDiscarded(dir: string, stem: string, ext: string)
    requires dir == [] || dir[|dir| - 1] == '/'
    requires '/' !in stem && '/' !in ext && '.' !in ext
    requires HasNonDot(stem, |stem|)
    ensures OutputName(dir + stem + "." + ext) == stem + OutputSuffix
  {
    var name := stem + "." + ext;
    assert dir + stem + "." + ext == dir + name;
    BaseNameAfterSlash(dir, name);
    StemDropsExtension(stem, ext);
  }

  /** Two base images with the same stem, in any directories and with any
      extensions, get the same output path, so the later one overwrites the
      earlier. */
  lemma SameStemSameOutput(outputDir: string, dir1: string, dir2: string, stem: string, ext1: string, ext2: string)
    requires dir1 == [] || dir1[|dir1| - 1] == '/'
    requires dir2 == [] || dir2[|dir2| - 1] == '/'
    requires '/' !in stem && '/' !in ext1 && '.' !in ext1 && '/' !in ext2 && '.' !in ext2
    requires HasNonDot(stem, |stem|)
    ensures OutputPath(outputDir, dir1 + stem + "." + ext1) == OutputPath(outputDir, dir2 + stem + "." + ext2)
  {
    ExtensionDiscarded(dir1, stem, ext1);
    ExtensionDiscarded(dir2, stem, ext2);
  }

  /** A '/'-free name placed after a directory that ends with '/' is its base name. */
  lemma BaseNameAfterSlash(dir: string, name: string)
    requires dir == [] || dir[|dir| - 1] == '/'
    requires '/' !in name
    ensures BaseName(dir + name) == name
  {
    if dir != [] {
      var head := dir[..|dir| - 1];
      assert dir + name == head + ("/" + name);
      LastIndexOfInSuffix(head, "/" + name, '/');
      assert ("/" + name)[1..] == name;
      assert LastIndexOf("/" + name, '/') == 0;
    }
  }

  /** `splitext` cuts at the last dot when some earlier character is not a dot. */
  lemma StemDropsExtension(stem: string, ext: string)
    requires '.' !in ext
    requires HasNonDot(stem, |stem|)
    ensures Stem(stem + "." + ext) == stem
  {
    var name := stem + "." + ext;
    LastDotBeforeExtension(stem, ext);
    NonDotKept(stem, "." + ext);
    assert name == stem + ("." + ext);
    assert name[..|stem|] == stem;
  }

  /** The dot written before a dot-free extension is the last one. */
  lemma LastDotBeforeExtension(stem: string, ext: string)
    requires '.' !in ext
    ensures LastIndexOf(stem + "." + ext, '.') == |stem|
  {
    assert stem + "." + ext == stem + ("." + ext);
    LastIndexOfInSuffix(stem, "." + ext, '.');
    assert ("." + ext)[1..] == ext;
    assert LastIndexOf("." + ext, '.') == 0;
  }

  /** A character that is not a dot stays where it was when text is appended. */
  lemma NonDotKept(stem: string, rest: string)
    requires HasNonDot(stem, |stem|)
    ensures HasNonDot(stem + rest, |stem|)
  {
    var k :| 0 <= k < |stem| && stem[k] != '.';
    assert (stem + rest)[k] == stem[k];
  }

  /** A name without a dot keeps its whole self as the stem. */
  lemma StemWithoutDot(name: string)
    requires '.' !in name
    ensures Stem(name) == name
  {
  }
}
