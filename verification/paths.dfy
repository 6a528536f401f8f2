/** The slice of Node's `path` module (POSIX flavour) that the route
    relies on, written as plain string functions. They follow Node for the
    inputs the route can produce; they do not normalise `.`/`..` segments
    or repeated slashes. */
module Paths {
  import opened Wrappers

  /** `path.isAbsolute`: a POSIX path is absolute when it starts with `/`. */
  predicate IsAbsolute(p: string)
    ensures IsAbsolute(p) <==> "/" <= p
  {
    |p| > 0 && p[0] == '/'
  }

  /** `path.resolve(cwd, p)`: an absolute `p` is kept as is, a relative one
      is appended to `cwd` with one separator between them. */
  function ResolveAgainst(cwd: string, p: string): (r: string)
    ensures IsAbsolute(p) ==> r == p
    ensures !IsAbsolute(p) && IsAbsolute(cwd) ==> IsAbsolute(r)
    ensures !IsAbsolute(p) ==> |p| < |r| && r[|r| - |p|..] == p
    ensures !IsAbsolute(p) ==> |cwd| + |p| <= |r| && r[..|cwd|] == cwd && r[|r| - |p| - 1] == '/'
  {
    if IsAbsolute(p) then p
    else if |cwd| > 0 && cwd[|cwd| - 1] == '/' then cwd + p
    else cwd + "/" + p
  }

  /** Position of the last occurrence of `c` in `s`, if any. */
  function LastIndexOf(s: string, c: char): (r: Option<nat>)
    ensures r.Some? ==> r.value < |s| && s[r.value] == c
    ensures r.Some? ==> forall j :: r.value < j < |s| ==> s[j] != c
    ensures r.None? <==> c !in s
    decreases |s|
  {
    if |s| == 0 then None
    else if s[|s| - 1] == c then Some(|s| - 1)
    else LastIndexOf(s[..|s| - 1], c)
  }

  /** `p` with every trailing `/` removed. */
  function TrimTrailingSlashes(p: string): (r: string)
    ensures |r| <= |p| && r == p[..|r|]
    ensures |r| == 0 || r[|r| - 1] != '/'
    ensures forall j :: |r| <= j < |p| ==> p[j] == '/'
    decreases |p|
  {
    if |p| > 0 && p[|p| - 1] == '/' then TrimTrailingSlashes(p[..|p| - 1]) else p
  }

  /** `path.basename`: the last segment, ignoring trailing separators. */
  function Basename(p: string): (r: string)
    ensures '/' !in r
    ensures |r| <= |p|
    ensures (|p| == 0 || p[|p| - 1] != '/') ==> p[|p| - |r|..] == r
    ensures '/' !in p ==> r == p
    ensures var t := TrimTrailingSlashes(p);
      && |r| <= |t| && t[|t| - |r|..] == r
      && (|r| == |t| || t[|t| - |r| - 1] == '/')
  {
    var t := TrimTrailingSlashes(p);
    match LastIndexOf(t, '/')
    case None => t
    case Some(i) => t[i + 1..]
  }

  /** The base name of a directory joined with a slash-free, non-empty
      name is that name. */
  lemma BasenameOfJoin(dir: string, name: string)
    requires name != "" && '/' !in name
    ensures Basename(dir + "/" + name) == name
  {
    var p := dir + "/" + name;
    assert p[|p| - 1] == name[|name| - 1];
    assert TrimTrailingSlashes(p) == p;
    assert p[|dir|] == '/';
    assert p[|p| - |name|..] == name;
  }

  /** `path.extname` of a file name: from the last `.` to the end, except
      that a name whose only dot is its first character (`.pdf`), a name
      without a dot, and the name `..` have no extension. */
  function Extname(name: string): (r: string)
    ensures r == "" || (r[0] == '.' && '.' !in r[1..])
    ensures |r| <= |name| && name[|name| - |r|..] == r
    ensures r != "" <==> name != ".." && exists i :: 0 < i < |name| && name[i] == '.'
  {
    match LastIndexOf(name, '.')
    case None => ""
    case Some(i) => if i == 0 || name == ".." then "" else name[i..]
  }

  /** A file name made of a non-empty stem followed by a dotted suffix that
      has no other dot has that suffix as its extension. */
  lemma ExtnameOfSuffix(stem: string, ext: string)
    requires |stem| > 0 && |ext| > 1 && ext[0] == '.' && '.' !in ext[1..]
    ensures Extname(stem + ext) == ext
  {
    var name := stem + ext;
    assert name[|stem|] == '.';
    forall j | |stem| < j < |name|
      ensures name[j] != '.'
    {
      assert name[j] == ext[1..][j - |stem| - 1];
    }
    assert name[|stem|..] == ext;
  }
}
