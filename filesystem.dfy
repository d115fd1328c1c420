/**
 * The file system the build tool reads: a tree of files and directories with their
 * modification times (in milliseconds), seen from a working directory. Relative paths
 * are resolved against the working directory the way the `fs` calls resolve them.
 */
module FileSystem {
  import opened Wrappers
  import opened Strings
  import opened Paths

  datatype Node = File(mtime: int, content: string) | Dir(mtime: int, entries: seq<Entry>)

  /** One directory entry; `readdir` lists them in the order of `entries`. */
  datatype Entry = Entry(name: string, node: Node)

  /** The whole tree and the working directory, given by component names from the root. */
  datatype Fs = Fs(root: Node, cwd: seq<string>)

  /** Entry names are plain names and unique within their directory, at every level. */
  predicate WellFormed(n: Node)
    decreases n
  {
    match n
    case File(_, _) => true
    case Dir(_, es) =>
      (forall i :: 0 <= i < |es| ==> IsName(es[i].name)) &&
      (forall i, j :: 0 <= i < j < |es| ==> es[i].name != es[j].name) &&
      (forall i :: 0 <= i < |es| ==> WellFormed(es[i].node))
  }

  predicate Valid(fs: Fs) {
    WellFormed(fs.root) && AllNames(fs.cwd)
  }

  /** One resolution step against an absolute location: ".." at the root stays at the root. */
  function ResolveStep(acc: seq<string>, c: string): seq<string> {
    if c == "" || c == "." then acc
    else if c == ".." then (if acc == [] then [] else acc[..|acc| - 1])
    else acc + [c]
  }

  /** `path.resolve` of the relative path `cs` from the absolute location `acc`. */
  function Resolve(acc: seq<string>, cs: seq<string>): seq<string>
    decreases |cs|
  {
    if cs == [] then acc else ResolveStep(Resolve(acc, cs[..|cs| - 1]), cs[|cs| - 1])
  }

  lemma ResolveName(acc: seq<string>, cs: seq<string>, c: string)
    requires IsName(c)
    ensures Resolve(acc, cs + [c]) == Resolve(acc, cs) + [c]
  {
    assert (cs + [c])[..|cs|] == cs;
  }

  /** The node of the first entry called `name`. */
  function FindEntry(es: seq<Entry>, name: string): (r: Option<Node>)
    ensures r.None? <==> forall i :: 0 <= i < |es| ==> es[i].name != name
    ensures r.Some? ==> exists i :: 0 <= i < |es| && es[i].name == name && es[i].node == r.value
  {
    if es == [] then None
    else if es[0].name == name then Some(es[0].node)
    else
      var r := FindEntry(es[1..], name);
      assert forall i :: 1 <= i < |es| ==> es[1..][i - 1] == es[i];
      r
  }

  /** With unique names, the entry found by name is the one listed under it. */
  lemma FindListed(es: seq<Entry>, i: nat)
    requires i < |es|
    requires forall a, b :: 0 <= a < b < |es| ==> es[a].name != es[b].name
    ensures FindEntry(es, es[i].name) == Some(es[i].node)
  {
  }

  /** The node reached from `n` by following the names `p`. */
  function Walk(n: Node, p: seq<string>): Option<Node>
    decreases |p|
  {
    if p == [] then Some(n)
    else match n
      case File(_, _) => None
      case Dir(_, es) =>
        match FindEntry(es, p[0])
        case None => None
        case Some(c) => Walk(c, p[1..])
  }

  lemma {:induction false} WalkAppend(n: Node, p: seq<string>, c: string)
    ensures Walk(n, p + [c]) ==
      match Walk(n, p)
      case Some(Dir(_, es)) => FindEntry(es, c)
      case _ => None
    decreases |p|
  {
    if p != [] {
      assert (p + [c])[1..] == p[1..] + [c];
      if n.Dir? && FindEntry(n.entries, p[0]).Some? {
        WalkAppend(FindEntry(n.entries, p[0]).value, p[1..], c);
      }
    } else {
      assert [c][1..] == [];
    }
  }

  lemma {:induction false} WalkWellFormed(n: Node, p: seq<string>)
    requires WellFormed(n) && Walk(n, p).Some?
    ensures WellFormed(Walk(n, p).value)
    decreases |p|
  {
    if p != [] {
      var c := FindEntry(n.entries, p[0]).value;
      WalkWellFormed(c, p[1..]);
    }
  }

  /** What the relative path `p` names, if anything. */
  function Lookup(fs: Fs, p: Path): Option<Node> {
    Walk(fs.root, Resolve(fs.cwd, p))
  }

  /** `fs.existsSync` */
  predicate Exists(fs: Fs, p: Path) {
    Lookup(fs, p).Some?
  }

  /** `fs.existsSync` on a name as given: the empty string names nothing, although it
      parses to the working directory. */
  predicate NameExists(fs: Fs, name: string) {
    name != "" && Exists(fs, Parse(name))
  }

  /** The node a path names, or an empty file when it names nothing. */
  function At(fs: Fs, p: Path): Node {
    Lookup(fs, p).GetOr(File(0, ""))
  }

  /** The `i`-th entry of a directory is found under the directory's path joined with its name. */
  lemma LookupChild(fs: Fs, p: Path, i: nat)
    requires Valid(fs) && Lookup(fs, p).Some? && Lookup(fs, p).value.Dir?
    requires i < |Lookup(fs, p).value.entries|
    ensures IsName(Lookup(fs, p).value.entries[i].name)
    ensures Lookup(fs, p + [Lookup(fs, p).value.entries[i].name]) == Some(Lookup(fs, p).value.entries[i].node)
  {
    var d := Lookup(fs, p).value;
    WalkWellFormed(fs.root, Resolve(fs.cwd, p));
    var c := d.entries[i].name;
    ResolveName(fs.cwd, p, c);
    WalkAppend(fs.root, Resolve(fs.cwd, p), c);
    FindListed(d.entries, i);
  }

  /** Every node reached from a well-formed tree is well formed. */
  lemma LookupWellFormed(fs: Fs, p: Path)
    requires Valid(fs) && Lookup(fs, p).Some?
    ensures WellFormed(Lookup(fs, p).value)
  {
    WalkWellFormed(fs.root, Resolve(fs.cwd, p));
  }

  /** `fs.readFileSync(p, 'utf8')`, with the errors Node reports. */
  function ReadFile(fs: Fs, p: Path): (r: Result<string>)
    ensures r.Ok? <==> Lookup(fs, p).Some? && Lookup(fs, p).value.File?
    ensures r.Ok? ==> r.value == Lookup(fs, p).value.content
  {
    match Lookup(fs, p)
    case None => Err("ENOENT: no such file or directory, open '" + PathString(p) + "'")
    case Some(Dir(_, _)) => Err("EISDIR: illegal operation on a directory, read")
    case Some(File(_, content)) => Ok(content)
  }

  /** `isSourceNewer`: both ages are taken at the same instant `now`. */
  function IsSourceNewer(now: int, sourceMtime: int, destinationMtime: int): (r: bool)
    ensures r <==> sourceMtime - destinationMtime >= 1000
  {
    (now - destinationMtime) - (now - sourceMtime) >= 1000
  }
}
