/**
 * Node's POSIX `path` helpers as the build scripts use them: on a file name
 * that holds no '/', and on directory paths that are already normalised.
 */
module NodePath {
  import opened JsString

  /** `path.join(dir, name)` for a normalised, non-empty `dir` and a plain name. */
  function Join(dir: string, name: string): string {
    dir + "/" + name
  }

  /**
   * `path.extname(name)` for a name without '/': from the last '.' to the end,
   * except that a name with no '.', a name whose only '.' is its first
   * character (a dot-file such as `.png`) and the name `..` have none.
   */
  function ExtName(name: string): (r: string)
    ensures r == "" || (r[0] == '.' && '.' !in r[1..] && EndsWith(name, r) && |r| < |name|)
    ensures '.' !in name ==> r == ""
  {
    var k := LastIndexOf(name, '.');
    if k <= 0 || name == ".." then ""
    else
      FromLastDot(name, k);
      name[k..]
  }

  /** The text from the last '.' on starts with that '.', holds no other, and ends the name. */
  lemma FromLastDot(name: string, k: int)
    requires k == LastIndexOf(name, '.') && k >= 0
    ensures name[k..] != [] && name[k..][0] == '.'
    ensures '.' !in name[k..][1..]
    ensures EndsWith(name, name[k..])
  {
    LastIndexOfIsLast(name, '.');
    var r := name[k..];
    assert r[1..] == name[k + 1..];
    forall c | c in r[1..]
      ensures c != '.'
    {
      var j :| 0 <= j < |r[1..]| && r[1..][j] == c;
      assert c == name[k + 1 + j];
    }
    assert name[|name| - |r|..] == r;
  }

  /** The extension of `stem + ext` is '.' + `tail` when `tail` is non-empty and dot-free and the stem is not empty. */
  lemma ExtNameOfStem(stem: string, tail: string)
    requires stem != [] && tail != [] && '.' !in tail
    ensures ExtName(stem + "." + tail) == "." + tail
  {
    LastIndexOfAppend(stem, '.', tail);
    var name := stem + "." + tail;
    assert name == stem + ['.'] + tail;
    assert name[|stem|..] == "." + tail;
    assert |name| > 2;
  }

  /** `path.basename(name, path.extname(name))`: the name without its last extension. */
  function StripExt(name: string): (r: string)
    ensures |r| <= |name| && r == name[..|r|]
    ensures |r| == |name| - |ExtName(name)|
  {
    name[..|name| - |ExtName(name)|]
  }
}
