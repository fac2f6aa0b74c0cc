/**
 * The two `pathlib` accessors the source uses on POSIX paths: `Path(p).name`
 * (the last component) and `Path(p).suffix` (the final extension of a name).
 */
module PathLib {
  import opened Optional

  /** The index of the last occurrence of `c` in `s`, if any. */
  function LastIndex(s: string, c: char): (r: Option<nat>)
    ensures r.Some? ==> r.value < |s| && s[r.value] == c
    ensures r.Some? ==> forall j :: r.value < j < |s| ==> s[j] != c
    ensures r.None? ==> forall j :: 0 <= j < |s| ==> s[j] != c
  {
    if s == [] then None
    else if s[|s| - 1] == c then Some(|s| - 1)
    else LastIndex(s[..|s| - 1], c)
  }

  /**
   * `Path(p).name`: the last component once empty and `.` components are
   * dropped, as `PurePosixPath` parses them; empty for a root or empty path.
   */
  function Name(p: string): (r: string)
    ensures forall j :: 0 <= j < |r| ==> r[j] != '/'
    ensures r != "."
  {
    if p == "" then ""
    else if p[|p| - 1] == '/' then Name(p[..|p| - 1])
    else
      match LastIndex(p, '/')
      case None => if p == "." then "" else p
      case Some(i) => if p[i + 1..] == "." then Name(p[..i + 1]) else p[i + 1..]
  }

  /** A component appended after a slash is the name of the joined path. */
  lemma NameOfChild(dir: string, n: string)
    requires n != "" && n != "." && forall j :: 0 <= j < |n| ==> n[j] != '/'
    ensures Name(dir + "/" + n) == n
  {
    var p := dir + "/" + n;
    assert p[|p| - 1] == n[|n| - 1];
    assert p[|dir|] == '/';
    var r := LastIndex(p, '/');
    assert r.Some? && r.value == |dir|;
    assert p[|dir| + 1..] == n;
  }

  /**
   * `PurePath.suffix` of a name: from its last `.` on, unless that dot is the
   * first or the last character.
   */
  function Suffix(name: string): (r: string)
    ensures r != "" ==> r[0] == '.' && 2 <= |r| < |name| && r == name[|name| - |r|..]
    ensures forall j :: 1 <= j < |r| ==> r[j] != '.'
  {
    match LastIndex(name, '.')
    case Some(i) => if 0 < i < |name| - 1 then name[i..] else ""
    case None => ""
  }

  /** A name made of a non-empty stem and one extension has that extension as suffix. */
  lemma SuffixOfStem(stem: string, ext: string)
    requires stem != "" && |ext| >= 2 && ext[0] == '.'
    requires forall j :: 1 <= j < |ext| ==> ext[j] != '.'
    ensures Suffix(stem + ext) == ext
  {
    var name := stem + ext;
    var r := LastIndex(name, '.');
    assert name[|stem|] == '.';
    assert r.Some? && r.value == |stem|;
    assert name[|stem|..] == ext;
  }
}
