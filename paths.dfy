/**
 * Paths as the build tool sees them through Node's `path` module, restricted to
 * relative POSIX paths: a path is the list of its components, kept in the normal
 * form `path.normalize` produces, and `path.join` is concatenation followed by
 * normalization.
 */
module Paths {
  import opened Wrappers
  import opened Strings

  /** A relative path as its list of components ([] is "."). */
  type Path = seq<string>

  /** A component that names a directory entry (what `readdir` can return). */
  predicate IsName(c: string) {
    c != "" && c != "." && c != ".." && '/' !in c
  }

  predicate AllNames(cs: seq<string>) {
    forall i :: 0 <= i < |cs| ==> IsName(cs[i])
  }

  /** The normal form: no empty or "." components, and ".." only as a leading run. */
  predicate Normal(p: Path) {
    (forall i :: 0 <= i < |p| ==> p[i] != "" && p[i] != ".") &&
    (forall i, j :: 0 <= i < j < |p| && p[j] == ".." ==> p[i] == "..")
  }

  /** One component added to a normal path: "" and "." vanish, ".." cancels the component
      before it unless that one is itself "..". */
  function Step(acc: Path, c: string): (r: Path)
    requires Normal(acc)
    ensures Normal(r)
  {
    if c == "" || c == "." then acc
    else if c == ".." && acc != [] && acc[|acc| - 1] != ".." then acc[..|acc| - 1]
    else acc + [c]
  }

  /** The components `cs` added one by one to the normal path `acc`. */
  function Append(acc: Path, cs: seq<string>): (r: Path)
    requires Normal(acc)
    ensures Normal(r)
    decreases |cs|
  {
    if cs == [] then acc else Step(Append(acc, cs[..|cs| - 1]), cs[|cs| - 1])
  }

  /** `path.normalize(s)` */
  function Parse(s: string): (r: Path)
    ensures Normal(r)
  {
    Append([], Split(s, '/'))
  }

  /** `path.join(a, b)` for two normal paths. */
  function Join(a: Path, b: Path): (r: Path)
    requires Normal(a)
    ensures Normal(r)
  {
    Append(a, b)
  }

  /** Joining a plain name appends it. */
  lemma JoinName(p: Path, c: string)
    requires Normal(p) && IsName(c)
    ensures Join(p, [c]) == p + [c]
  {
    assert [c][..0] == [];
    assert Append(p, [c]) == Step(Append(p, []), c);
  }

  /** Joining a list of plain names appends them. */
  lemma {:induction false} JoinNames(p: Path, cs: seq<string>)
    requires Normal(p) && AllNames(cs)
    ensures Join(p, cs) == p + cs
    decreases |cs|
  {
    if cs != [] {
      JoinNames(p, cs[..|cs| - 1]);
      assert cs == cs[..|cs| - 1] + [cs[|cs| - 1]];
    }
  }

  /** The string form of a normal path, as `path.normalize` prints it. */
  function PathString(p: Path): string {
    if p == [] then "." else JoinWith(p, "/")
  }

  /** `path.parse(p).dir` of a normal path, as a path. */
  function Dir(p: Path): (r: Path)
    ensures |p| > 0 ==> r + [p[|p| - 1]] == p
  {
    if p == [] then [] else p[..|p| - 1]
  }

  /** `path.parse(p).base` of a normal path. */
  function Base(p: Path): string {
    if p == [] then "." else p[|p| - 1]
  }

  /** No component contains a '*'. */
  predicate StarFree(p: Path) {
    forall i :: 0 <= i < |p| ==> '*' !in p[i]
  }

  /** `path.parse(base).ext`: from the last dot on, except that a name without a dot,
      a name whose only dot leads it, and ".." have none. */
  function ExtOf(base: string): (r: string)
    ensures r == [] || (r[0] == '.' && '.' !in r[1..])
    ensures |r| <= |base| && r == base[|base| - |r|..]
    ensures r != [] ==> |r| < |base|
  {
    match LastIndex(base, '.')
    case None => ""
    case Some(i) => if i == 0 || base == ".." then "" else base[i..]
  }

  /** `path.parse(base).name`: the base without its extension. */
  function NameOf(base: string): (r: string)
    ensures r + ExtOf(base) == base
  {
    base[..|base| - |ExtOf(base)|]
  }

  /** The string with its trailing slashes removed. */
  function TrimSlashes(s: string): (r: string)
    ensures r == [] || r[|r| - 1] != '/'
    ensures |r| <= |s| && r == s[..|r|]
  {
    if s != [] && s[|s| - 1] == '/' then TrimSlashes(s[..|s| - 1]) else s
  }

  /** `path.parse(s).dir` of a raw (not normalized) relative string. */
  function StrDir(s: string): string {
    var t := TrimSlashes(s);
    if t == [] then (if s == [] then "" else "/")
    else match LastIndex(t, '/')
      case None => ""
      case Some(i) => if i == 0 then "/" else t[..i]
  }

  /** `path.parse(s).base` of a raw (not normalized) relative string. */
  function StrBase(s: string): (r: string)
    ensures '/' !in r
  {
    var t := TrimSlashes(s);
    match LastIndex(t, '/')
    case None => t
    case Some(i) => t[i + 1..]
  }
}
