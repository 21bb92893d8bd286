/**
 * Node's `path.extname` and `path.basename(p, ext)` (POSIX flavour) on the
 * names `fs.readdirSync` returns: a single path component, so the slash
 * handling of those functions never comes into play.
 */
module NodePath {

  /** A directory entry name; directory listings never contain '/'. */
  type EntryName = s: string | '/' !in s

  /** `s.lastIndexOf(c)`, or -1 when `c` does not occur. */
  function LastIndexOf(s: string, c: char): (r: int)
    ensures -1 <= r < |s|
    ensures r >= 0 ==> s[r] == c && c !in s[r + 1..]
    ensures r == -1 ==> c !in s
    decreases |s|
  {
    if s == [] then -1
    else if s[|s| - 1] == c then |s| - 1
    else LastIndexOf(s[..|s| - 1], c)
  }

  /**
   * `path.extname(name)`: the suffix that starts at the last '.', or "" when
   * the only dot is the first character (a dot-file such as ".jpg"), when
   * there is no dot, or for "..".
   */
  function ExtName(name: EntryName): (ext: string)
    ensures ext == "" <==> name == ".." || name == [] || '.' !in name[1..]
    ensures ext != "" ==>
      && |ext| < |name| && ext == name[|name| - |ext|..]
      && ext[0] == '.' && '.' !in ext[1..]
  {
    var dot := LastIndexOf(name, '.');
    if dot <= 0 || name == ".." then ""
    else
      assert name[dot] in name[1..] by { assert name[1..][dot - 1] == name[dot]; }
      name[dot..]
  }

  predicate EndsWith(s: string, suffix: string)
  {
    |suffix| <= |s| && s[|s| - |suffix|..] == suffix
  }

  /**
   * `path.basename(path, suffix)`: removes `suffix` when `path` ends with it,
   * comparing case-sensitively; otherwise the whole name is kept.
   */
  function BaseName(path: EntryName, suffix: string): (r: string)
    ensures suffix != "" && EndsWith(path, suffix) ==> r + suffix == path
    ensures suffix == "" || !EndsWith(path, suffix) ==> r == path
  {
    if suffix != "" && suffix == path then ""
    else if 0 < |suffix| < |path| && path[|path| - |suffix|..] == suffix then
      assert path == path[..|path| - |suffix|] + path[|path| - |suffix|..];
      path[..|path| - |suffix|]
    else path
  }

  /** A name other than ".." made of a non-empty stem and a one-dot extension has that extension. */
  lemma ExtNameOfStemAndExtension(name: EntryName, stem: string, ext: string)
    requires name == stem + ext && stem != [] && name != ".."
    requires ext != [] && ext[0] == '.' && '.' !in ext[1..]
    ensures ExtName(name) == ext
  {
    var p := |stem|;
    assert name[p] == '.';
    assert name[p + 1..] == ext[1..];
    assert LastIndexOf(name, '.') == p;
  }
}
