/** The default output path of the command line (main.py, `__main__`):
    when no output path is given, the output goes next to the input video
    and its file name is the video's name with `generated_` in front.

    The POSIX path functions it relies on (`dirname`, `basename`,
    `splitext`, `join` with `/` as separator) are written out here. */
module OutputPath {
  import opened Wrappers

  const Prefix: string := "generated_"

  /** The position of the last `c` in `s`, or -1 when there is none. */
  function LastIndex(s: string, c: char): (i: int)
    ensures -1 <= i < |s|
    ensures 0 <= i ==> s[i] == c
    ensures forall j :: i < j < |s| ==> s[j] != c
  {
    if |s| == 0 then -1
    else if s[|s| - 1] == c then |s| - 1
    else LastIndex(s[..|s| - 1], c)
  }

  predicate AllSlashes(s: string)
  {
    forall k :: 0 <= k < |s| ==> s[k] == '/'
  }

  /** `s` without its trailing slashes. */
  function StripSlashes(s: string): (r: string)
    ensures r <= s
    ensures |r| == 0 || r[|r| - 1] != '/'
    ensures AllSlashes(s[|r|..])
  {
    if |s| > 0 && s[|s| - 1] == '/' then StripSlashes(s[..|s| - 1]) else s
  }

  /** Everything up to the last slash; trailing slashes are dropped unless
      nothing but slashes is left. */
  function Dirname(p: string): string
  {
    var head := p[..LastIndex(p, '/') + 1];
    if |head| > 0 && !AllSlashes(head) then StripSlashes(head) else head
  }

  /** Everything after the last slash. */
  function Basename(p: string): string
  {
    p[LastIndex(p, '/') + 1..]
  }

  /** Splits off the extension: from the last dot of the final component,
      provided that dot is not part of the component's leading dots. */
  function SplitExt(p: string): (string, string)
  {
    var sep := LastIndex(p, '/');
    var dot := LastIndex(p, '.');
    if sep < dot && exists k :: sep + 1 <= k < dot && p[k] != '.' then (p[..dot], p[dot..])
    else (p, "")
  }

  /** Joins two path components with one slash between them. */
  function Join(a: string, b: string): string
  {
    if |b| > 0 && b[0] == '/' then b
    else if |a| == 0 || a[|a| - 1] == '/' then a + b
    else a + "/" + b
  }

  /** The generated output path for an input video. */
  function DefaultOutputPath(videoPath: string): string
  {
    var (stem, ext) := SplitExt(Basename(videoPath));
    Join(Dirname(videoPath), Prefix + stem + ext)
  }

  /** The output path the command line passes on: the given one, or the
      generated one when none or an empty one is given. */
  function ResolveOutputPath(given: Option<string>, videoPath: string): (r: string)
    ensures given.Some? && given.value != "" ==> r == given.value
    ensures given.None? || given.value == "" ==>
              && r == DefaultOutputPath(videoPath)
              && Dirname(r) == Dirname(videoPath)
              && Basename(r) == Prefix + Basename(videoPath)
  {
    DefaultKeepsDirectory(videoPath);
    DefaultPrefixesName(videoPath);
    if given.None? || given.value == "" then DefaultOutputPath(videoPath) else given.value
  }

  // ---------------------------------------------------------------------------
  // Facts about the path functions

  /** The last occurrence is unique: any position that is `c` with no `c`
      after it is the last one. */
  lemma LastIndexUnique(s: string, c: char, k: int)
    requires -1 <= k < |s|
    requires 0 <= k ==> s[k] == c
    requires forall j :: k < j < |s| ==> s[j] != c
    ensures LastIndex(s, c) == k
  {
  }

  lemma LastIndexConcat(a: string, b: string, c: char)
    ensures LastIndex(a + b, c) ==
              if 0 <= LastIndex(b, c) then |a| + LastIndex(b, c) else LastIndex(a, c)
  {
    var k := if 0 <= LastIndex(b, c) then |a| + LastIndex(b, c) else LastIndex(a, c);
    LastIndexUnique(a + b, c, k);
  }

  /** Splitting off the extension loses nothing. */
  lemma SplitExtJoins(p: string)
    ensures SplitExt(p).0 + SplitExt(p).1 == p
  {
    var sep := LastIndex(p, '/');
    var dot := LastIndex(p, '.');
    if sep < dot && exists k :: sep + 1 <= k < dot && p[k] != '.' {
      assert p[..dot] + p[dot..] == p;
    }
  }

  /** A path is its directory part, up to the last slash, followed by its
      base name, which has no slash. */
  lemma BasenameSplits(p: string)
    ensures p == p[..LastIndex(p, '/') + 1] + Basename(p)
    ensures '/' !in Basename(p)
  {
    var cut := LastIndex(p, '/') + 1;
    assert p[..cut] + p[cut..] == p;
    BasenameHasNoSlash(p);
  }

  lemma BasenameHasNoSlash(p: string)
    ensures '/' !in Basename(p)
  {
  }

  /** A directory part is empty, all slashes, or ends in something other
      than a slash. */
  lemma DirnameShape(p: string)
    ensures var d := Dirname(p);
            |d| == 0 || d[|d| - 1] != '/' || (AllSlashes(d) && d == p[..LastIndex(p, '/') + 1])
  {
  }

  lemma StripSlashesAfter(d: string)
    requires |d| > 0 && d[|d| - 1] != '/'
    ensures StripSlashes(d + "/") == d
  {
    assert (d + "/")[..|d + "/"| - 1] == d;
  }

  /** The generated file name: the prefix and the video's own file name. */
  lemma GeneratedName(videoPath: string)
    ensures var (stem, ext) := SplitExt(Basename(videoPath));
            Prefix + stem + ext == Prefix + Basename(videoPath)
    ensures '/' !in Prefix + Basename(videoPath)
  {
    SplitExtJoins(Basename(videoPath));
    BasenameSplits(videoPath);
  }

  /** Joining a directory with a file name and taking the path apart again
      gives back both. */
  lemma JoinSplits(d: string, g: string, p: string)
    requires d == Dirname(p)
    requires |g| > 0 && '/' !in g
    ensures Basename(Join(d, g)) == g
    ensures Dirname(Join(d, g)) == d
  {
    DirnameShape(p);
    assert LastIndex(g, '/') == -1;
    var r := Join(d, g);
    if |d| == 0 {
      assert r == g;
    } else if d[|d| - 1] == '/' {
      assert r == d + g;
      LastIndexConcat(d, g, '/');
      assert r[..|d|] == d;
    } else {
      assert r == (d + "/") + g;
      LastIndexConcat(d + "/", g, '/');
      assert r[..|d| + 1] == d + "/";
      StripSlashesAfter(d);
    }
  }

  /** The generated path keeps the video's directory. */
  lemma DefaultKeepsDirectory(videoPath: string)
    ensures Dirname(DefaultOutputPath(videoPath)) == Dirname(videoPath)
  {
    GeneratedName(videoPath);
    JoinSplits(Dirname(videoPath), Prefix + Basename(videoPath), videoPath);
  }

  /** The generated path's file name is the video's file name with the
      prefix in front. */
  lemma DefaultPrefixesName(videoPath: string)
    ensures Basename(DefaultOutputPath(videoPath)) == Prefix + Basename(videoPath)
  {
    GeneratedName(videoPath);
    JoinSplits(Dirname(videoPath), Prefix + Basename(videoPath), videoPath);
  }

  /** Putting the prefix in front of a file name keeps its extension and
      prefixes its stem. A name whose dots are all leading (`.mp4`) has no
      extension, but the prefixed name does: its last dot now follows the
      prefix's letters, so everything from there becomes the extension. */
  lemma SplitExtPrefixed(name: string)
    requires '/' !in name
    ensures SplitExt(name).1 != "" ==> SplitExt(Prefix + name) == (Prefix + SplitExt(name).0, SplitExt(name).1)
    ensures '.' !in name ==> SplitExt(Prefix + name) == (Prefix + name, "")
    ensures '.' in name ==>
              var dot := LastIndex(name, '.');
              && 0 <= dot
              && SplitExt(Prefix + name) == (Prefix + name[..dot], name[dot..])
  {
    var out := Prefix + name;
    LastIndexUnique(name, '/', -1);
    LastIndexUnique(Prefix, '/', -1);
    LastIndexUnique(Prefix, '.', -1);
    LastIndexConcat(Prefix, name, '/');
    LastIndexConcat(Prefix, name, '.');
    var dot := LastIndex(name, '.');
    if '.' in name {
      assert 0 <= dot;
      var d := |Prefix| + dot;
      assert LastIndex(out, '.') == d;
      assert out[0] != '.' && -1 + 1 <= 0 < d;
      assert out[..d] == Prefix + name[..dot];
      assert out[d..] == name[dot..];
    }
    if '.' !in name {
      LastIndexUnique(name, '.', -1);
    }
  }

  /** The generated file name keeps the video's extension: its stem is the
      prefixed stem and its extension the same extension; a name without a
      dot stays without an extension. A name whose dots are all leading is
      the exception, see `HiddenNameGainsExtension`. */
  lemma DefaultKeepsExtension(videoPath: string)
    ensures var (stem, ext) := SplitExt(Basename(videoPath));
            ext != "" ==> SplitExt(Basename(DefaultOutputPath(videoPath))) == (Prefix + stem, ext)
    ensures '.' !in Basename(videoPath) ==>
              SplitExt(Basename(DefaultOutputPath(videoPath))) == (Prefix + Basename(videoPath), "")
    ensures var name := Basename(videoPath);
            '.' in name && SplitExt(name).1 == "" ==>
              var dot := LastIndex(name, '.');
              SplitExt(Basename(DefaultOutputPath(videoPath))) == (Prefix + name[..dot], name[dot..])
  {
    DefaultPrefixesName(videoPath);
    BasenameSplits(videoPath);
    SplitExtPrefixed(Basename(videoPath));
  }

  /** A video named like `.mp4`, a dot and then a name without dots, has no
      extension by `splitext`, yet its generated name `generated_.mp4` has
      the extension `.mp4`: the name is kept whole, only its split changes. */
  lemma HiddenNameGainsExtension(name: string)
    requires |name| > 0 && name[0] == '.'
    requires '/' !in name && '.' !in name[1..]
    ensures SplitExt(name) == (name, "")
    ensures Basename(DefaultOutputPath(name)) == Prefix + name
    ensures SplitExt(Basename(DefaultOutputPath(name))) == (Prefix, name)
  {
    LastIndexUnique(name, '/', -1);
    forall j | 0 < j < |name|
      ensures name[j] != '.'
    {
      assert name[j] == name[1..][j - 1];
    }
    LastIndexUnique(name, '.', 0);
    assert Basename(name) == name;
    DefaultPrefixesName(name);
    SplitExtPrefixed(name);
    assert name[..0] == [] && name[0..] == name;
    assert Prefix + name[..0] == Prefix;
  }
}
