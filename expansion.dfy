/**
 * `getFilesWithRecursiveDescent` (build.js): the list of (source, destination) pairs a
 * masked files entry expands to. Directories are entered only under the recursive mask;
 * a file is taken when the mask accepts its extension and its destination is missing or
 * at least one second older than it.
 */
module Expansion {
  import opened Wrappers
  import opened Strings
  import opened Paths
  import opened FileSystem

  /** The three masks: `["*", null]`, `["*", "*"]` and `["*", ".ext"]`. */
  datatype Mask = Recursive | AnyFile | Extension(ext: string)

  datatype Pair = Pair(source: Path, destination: Path)

  /** The mask a final component `*`, `*.*` or `*.ext` stands for, when its name is `*`. */
  function MaskOf(base: string): Option<Mask> {
    if base == "*" then Some(Recursive)
    else if base == "*.*" then Some(AnyFile)
    else
      var parts := Split(base, '.');
      if parts[0] == "*" && (|parts| < 2 || (parts[1] != "*" && parts[1] != "")) then
        Some(Extension(ExtOf(base)))
      else None
  }

  /** Of the bases named `*`, exactly `*`, `*.*` and `*.ext` (a non-empty `ext` other
      than `*`) give a mask, and `*.ext` filters on the extension `.ext`. */
  lemma MaskShapes(base: string)
    requires NameOf(base) == "*"
    ensures MaskOf(base) == Some(Recursive) <==> base == "*"
    ensures MaskOf(base) == Some(AnyFile) <==> base == "*.*"
    ensures MaskOf(base).None? <==> base == "*."
    ensures MaskOf(base).Some? && MaskOf(base).value.Extension? ==>
      var ext := MaskOf(base).value.ext;
      base == "*" + ext && |ext| >= 2 && ext[0] == '.' && '.' !in ext[1..] && ext != ".*"
  {
    var ext := ExtOf(base);
    assert base == "*" + ext;
    if ext != "" && ext != "." && ext != ".*" {
      var r := ext[1..];
      assert base == "*." + r && '.' !in r && r != "" && r != "*";
      assert FirstIndex(base, '.') == 1;
      assert base[2..] == r;
      assert Split(r, '.') == [r];
      assert Split(base, '.') == ["*", r];
    } else if ext == "." {
      assert FirstIndex(base, '.') == 1;
      assert base[2..] == "";
      assert Split(base, '.') == ["*", ""];
    }
  }

  /** Whether the mask lets a file of this name through. */
  predicate Accepts(mask: Mask, name: string) {
    match mask
    case Extension(e) => ExtOf(name) == e
    case _ => true
  }

  /** The destination is missing, or the source is newer by at least a second. */
  predicate Stale(fs: Fs, destination: Path, sourceMtime: int, now: int) {
    match Lookup(fs, destination)
    case None => true
    case Some(d) => IsSourceNewer(now, sourceMtime, d.mtime)
  }

  /** The pairs the first `k` entries of the directory `dir` (found at `src`) yield. */
  function ExpandEntries(fs: Fs, dir: Node, k: nat, src: Path, dst: Path, mask: Mask, now: int): seq<Pair>
    requires dir.Dir? && k <= |dir.entries|
    decreases dir, k
  {
    if k == 0 then []
    else
      assert dir.entries[k - 1] in dir.entries;
      ExpandEntries(fs, dir, k - 1, src, dst, mask, now) +
      Contribution(fs, dir.entries[k - 1], src, dst, mask, now)
  }

  /** The pairs one entry of the directory at `src` yields. */
  function Contribution(fs: Fs, e: Entry, src: Path, dst: Path, mask: Mask, now: int): seq<Pair>
    decreases e, 0
  {
    match e.node
    case Dir(_, es) =>
      if mask == Recursive then ExpandEntries(fs, e.node, |es|, src + [e.name], dst + [e.name], mask, now)
      else []
    case File(m, _) =>
      if Accepts(mask, e.name) && Stale(fs, dst + [e.name], m, now) then [Pair(src + [e.name], dst + [e.name])]
      else []
  }

  /** The specification of the descent from the directory `src`. */
  function GetFiles(fs: Fs, src: Path, dst: Path, mask: Mask, now: int): (r: Result<seq<Pair>>)
    ensures r.Err? <==> !(Lookup(fs, src).Some? && Lookup(fs, src).value.Dir?)
  {
    match Lookup(fs, src)
    case None => Err("Could not locate path: " + PathString(src))
    case Some(File(_, _)) => Err("ENOTDIR: not a directory, scandir '" + PathString(src) + "'")
    case Some(d) => Ok(ExpandEntries(fs, d, |d.entries|, src, dst, mask, now))
  }

  /** `getFilesWithRecursiveDescent(src, dst, mask)`: the listing is walked in order, each
      subdirectory entered (recursive mask only) and each file checked against the mask
      and against its destination. */
  method GetFilesWithRecursiveDescent(fs: Fs, src: Path, dst: Path, mask: Mask, now: int)
    returns (r: Result<seq<Pair>>)
    requires Valid(fs)
    ensures r == GetFiles(fs, src, dst, mask, now)
    decreases At(fs, src), 1
  {
    var found := Lookup(fs, src);
    if found.None? {
      return Err("Could not locate path: " + PathString(src));
    }
    var dir := found.value;
    if dir.File? {
      return Err("ENOTDIR: not a directory, scandir '" + PathString(src) + "'");
    }
    var list: seq<Pair> := [];
    var i := 0;
    while i < |dir.entries|
      invariant i <= |dir.entries|
      invariant list == ExpandEntries(fs, dir, i, src, dst, mask, now)
    {
      var pairs := EntryPairs(fs, src, dst, mask, now, i);
      list := list + pairs;
      i := i + 1;
    }
    return Ok(list);
  }

  /** One entry of the listing: a subdirectory is entered (recursive mask only), a file is
      taken when the mask accepts it and its destination is missing or older. */
  method EntryPairs(fs: Fs, src: Path, dst: Path, mask: Mask, now: int, i: nat) returns (pairs: seq<Pair>)
    requires Valid(fs) && Lookup(fs, src).Some? && Lookup(fs, src).value.Dir?
    requires i < |Lookup(fs, src).value.entries|
    ensures pairs == Contribution(fs, Lookup(fs, src).value.entries[i], src, dst, mask, now)
    decreases At(fs, src), 0
  {
    var dir := Lookup(fs, src).value;
    var e := dir.entries[i];
    LookupChild(fs, src, i);
    var source := src + [e.name];
    var destination := dst + [e.name];
    pairs := [];
    if Lookup(fs, source).value.Dir? {
      if mask == Recursive {
        assert e in dir.entries;
        var sub := GetFilesWithRecursiveDescent(fs, source, destination, mask, now);
        pairs := sub.value;
      }
    } else {
      var taken := Accepts(mask, e.name);
      if taken && Lookup(fs, destination).Some? {
        taken := IsSourceNewer(now, e.node.mtime, Lookup(fs, destination).value.mtime);
      }
      if taken {
        pairs := [Pair(source, destination)];
      }
    }
  }

  /** A file `rel` below the source directory that the descent must take: reachable for
      the mask, accepted by it, and stale at its destination. */
  predicate Selected(fs: Fs, src: Path, dst: Path, mask: Mask, now: int, rel: seq<string>) {
    |rel| >= 1 && AllNames(rel) && (mask == Recursive || |rel| == 1) &&
    Lookup(fs, src + rel).Some? && Lookup(fs, src + rel).value.File? &&
    Accepts(mask, rel[|rel| - 1]) &&
    Stale(fs, dst + rel, Lookup(fs, src + rel).value.mtime, now)
  }

  /** A pair the descent produced: the destination mirrors the source below the two roots. */
  predicate Produced(fs: Fs, src: Path, dst: Path, mask: Mask, now: int, p: Pair) {
    |src| < |p.source| && p.source[..|src|] == src &&
    p.destination == dst + p.source[|src|..] &&
    Selected(fs, src, dst, mask, now, p.source[|src|..])
  }

  lemma ProducedShift(fs: Fs, src: Path, dst: Path, mask: Mask, now: int, c: string, p: Pair)
    requires IsName(c) && mask == Recursive
    requires Produced(fs, src + [c], dst + [c], mask, now, p)
    ensures Produced(fs, src, dst, mask, now, p)
  {
    var rel := p.source[|src| + 1..];
    assert p.source[|src|..] == [c] + rel;
    assert p.source[..|src|] == (src + [c])[..|src|];
    assert src + ([c] + rel) == (src + [c]) + rel;
    assert dst + ([c] + rel) == (dst + [c]) + rel;
  }

  /** Every pair produced by the first `k` entries is a selected file, mirrored. */
  lemma {:induction false} ExpandSound(fs: Fs, dir: Node, k: nat, src: Path, dst: Path, mask: Mask, now: int)
    requires Valid(fs) && Lookup(fs, src) == Some(dir) && dir.Dir? && k <= |dir.entries|
    ensures forall p :: p in ExpandEntries(fs, dir, k, src, dst, mask, now) ==> Produced(fs, src, dst, mask, now, p)
    decreases dir, k
  {
    if k > 0 {
      ExpandSound(fs, dir, k - 1, src, dst, mask, now);
      var e := dir.entries[k - 1];
      LookupChild(fs, src, k - 1);
      assert e in dir.entries;
      ContributionSound(fs, e, src, dst, mask, now);
      ExpandSplit(fs, dir, k, src, dst, mask, now);
    }
  }

  /** Every pair one entry yields is a selected file, mirrored. */
  lemma {:induction false} ContributionSound(fs: Fs, e: Entry, src: Path, dst: Path, mask: Mask, now: int)
    requires Valid(fs) && IsName(e.name) && Lookup(fs, src + [e.name]) == Some(e.node)
    ensures forall p :: p in Contribution(fs, e, src, dst, mask, now) ==> Produced(fs, src, dst, mask, now, p)
    decreases e, 1
  {
    if e.node.Dir? && mask == Recursive {
      ExpandSound(fs, e.node, |e.node.entries|, src + [e.name], dst + [e.name], mask, now);
      forall p | p in Contribution(fs, e, src, dst, mask, now) ensures Produced(fs, src, dst, mask, now, p) {
        ProducedShift(fs, src, dst, mask, now, e.name, p);
      }
    } else if e.node.File? {
      forall p | p in Contribution(fs, e, src, dst, mask, now) ensures Produced(fs, src, dst, mask, now, p) {
        FileProduced(fs, src, dst, mask, now, e, p);
      }
    }
  }

  /** A pair of the first k entries comes from the first k - 1 or from entry k - 1. */
  lemma ExpandSplit(fs: Fs, dir: Node, k: nat, src: Path, dst: Path, mask: Mask, now: int)
    requires dir.Dir? && 0 < k <= |dir.entries|
    ensures forall p :: p in ExpandEntries(fs, dir, k, src, dst, mask, now) ==>
      p in ExpandEntries(fs, dir, k - 1, src, dst, mask, now) || p in Contribution(fs, dir.entries[k - 1], src, dst, mask, now)
  {
    var prev := ExpandEntries(fs, dir, k - 1, src, dst, mask, now);
    var more := Contribution(fs, dir.entries[k - 1], src, dst, mask, now);
    assert ExpandEntries(fs, dir, k, src, dst, mask, now) == prev + more;
  }

  /** A file entry's pair, when it has one, is a selected file, mirrored. */
  lemma FileProduced(fs: Fs, src: Path, dst: Path, mask: Mask, now: int, e: Entry, p: Pair)
    requires e.node.File? && IsName(e.name) && Lookup(fs, src + [e.name]) == Some(e.node)
    requires p in Contribution(fs, e, src, dst, mask, now)
    ensures Produced(fs, src, dst, mask, now, p)
  {
    assert p.source == src + [e.name];
    assert p.source[|src|..] == [e.name];
    assert p.source[..|src|] == src;
  }

  /** The pairs of earlier entries stay in the list as more entries are walked. */
  lemma {:induction false} ExpandGrows(fs: Fs, dir: Node, k: nat, k': nat, src: Path, dst: Path, mask: Mask, now: int)
    requires dir.Dir? && k <= k' <= |dir.entries|
    ensures forall p :: p in ExpandEntries(fs, dir, k, src, dst, mask, now) ==> p in ExpandEntries(fs, dir, k', src, dst, mask, now)
    decreases k'
  {
    if k < k' {
      ExpandGrows(fs, dir, k, k' - 1, src, dst, mask, now);
      ExpandStepKeeps(fs, dir, k', src, dst, mask, now);
      forall p | p in ExpandEntries(fs, dir, k, src, dst, mask, now)
        ensures p in ExpandEntries(fs, dir, k', src, dst, mask, now)
      {
        assert p in ExpandEntries(fs, dir, k' - 1, src, dst, mask, now);
      }
    }
  }

  /** One more entry walked keeps the pairs of the entries before it and adds its own. */
  lemma ExpandStepKeeps(fs: Fs, dir: Node, k: nat, src: Path, dst: Path, mask: Mask, now: int)
    requires dir.Dir? && 0 < k <= |dir.entries|
    ensures forall p :: p in ExpandEntries(fs, dir, k - 1, src, dst, mask, now) ==> p in ExpandEntries(fs, dir, k, src, dst, mask, now)
    ensures forall p :: p in Contribution(fs, dir.entries[k - 1], src, dst, mask, now) ==> p in ExpandEntries(fs, dir, k, src, dst, mask, now)
  {
    var prev := ExpandEntries(fs, dir, k - 1, src, dst, mask, now);
    var more := Contribution(fs, dir.entries[k - 1], src, dst, mask, now);
    assert ExpandEntries(fs, dir, k, src, dst, mask, now) == prev + more;
    AppendKeeps(prev, more);
  }

  /** Appending keeps every element already there. */
  lemma AppendKeeps<T>(a: seq<T>, b: seq<T>)
    ensures forall p :: p in a ==> p in a + b
    ensures forall p :: p in b ==> p in a + b
  {
  }

  /** Walking a concatenated path is walking its two halves in turn. */
  lemma {:induction false} WalkConcat(n: Node, p: seq<string>, q: seq<string>)
    ensures Walk(n, p + q) == match Walk(n, p) case Some(m) => Walk(m, q) case None => None
    decreases |p|
  {
    if p != [] {
      assert (p + q)[0] == p[0];
      assert (p + q)[1..] == p[1..] + q;
      if n.Dir? && FindEntry(n.entries, p[0]).Some? {
        WalkConcat(FindEntry(n.entries, p[0]).value, p[1..], q);
      }
    } else {
      assert p + q == q;
    }
  }

  lemma {:induction false} ResolveNames(acc: seq<string>, p: seq<string>, q: seq<string>)
    requires AllNames(q)
    ensures Resolve(acc, p + q) == Resolve(acc, p) + q
    decreases |q|
  {
    if q != [] {
      var q' := q[..|q| - 1];
      ResolveNames(acc, p, q');
      assert p + q == (p + q') + [q[|q| - 1]];
      ResolveName(acc, p + q', q[|q| - 1]);
      assert q == q' + [q[|q| - 1]];
    } else {
      assert p + q == p;
    }
  }

  /** Looking up a path extended by names walks on from what the path names. */
  lemma LookupConcat(fs: Fs, p: Path, q: seq<string>)
    requires AllNames(q)
    ensures Lookup(fs, p + q) == match Lookup(fs, p) case Some(m) => Walk(m, q) case None => None
  {
    ResolveNames(fs.cwd, p, q);
    WalkConcat(fs.root, Resolve(fs.cwd, p), q);
  }

  /** The first component of a reachable path below a directory is one of its entries. */
  lemma FirstEntry(fs: Fs, dir: Node, src: Path, rel: seq<string>) returns (i: nat)
    requires Valid(fs) && Lookup(fs, src) == Some(dir) && dir.Dir?
    requires |rel| >= 1 && AllNames(rel) && Lookup(fs, src + rel).Some?
    ensures i < |dir.entries| && dir.entries[i].name == rel[0]
    ensures Lookup(fs, src + [rel[0]]) == Some(dir.entries[i].node)
    ensures Lookup(fs, src + rel) == Walk(dir.entries[i].node, rel[1..])
  {
    var c := rel[0];
    assert rel == [c] + rel[1..];
    LookupConcat(fs, src, rel);
    WalkConcat(dir, [c], rel[1..]);
    assert [c][1..] == [];
    var child := FindEntry(dir.entries, c).value;
    i :| 0 <= i < |dir.entries| && dir.entries[i].name == c && dir.entries[i].node == child;
    LookupChild(fs, src, i);
  }

  /** What one entry contributes is in the directory's list. */
  lemma InExpand(fs: Fs, dir: Node, i: nat, src: Path, dst: Path, mask: Mask, now: int, p: Pair)
    requires dir.Dir? && i < |dir.entries|
    requires p in Contribution(fs, dir.entries[i], src, dst, mask, now)
    ensures p in ExpandEntries(fs, dir, |dir.entries|, src, dst, mask, now)
  {
    ExpandStepKeeps(fs, dir, i + 1, src, dst, mask, now);
    ExpandGrows(fs, dir, i + 1, |dir.entries|, src, dst, mask, now);
  }

  /** Every selected file is produced. */
  lemma {:induction false} ExpandComplete(fs: Fs, dir: Node, src: Path, dst: Path, mask: Mask, now: int, rel: seq<string>)
    requires Valid(fs) && Lookup(fs, src) == Some(dir) && dir.Dir?
    requires Selected(fs, src, dst, mask, now, rel)
    ensures Pair(src + rel, dst + rel) in ExpandEntries(fs, dir, |dir.entries|, src, dst, mask, now)
    decreases |rel|
  {
    var c := rel[0];
    var rest := rel[1..];
    var i := FirstEntry(fs, dir, src, rel);
    var e := dir.entries[i];
    AppendFirst(src, rel);
    AppendFirst(dst, rel);
    if rest == [] {
      assert rel == [c];
      assert Contribution(fs, e, src, dst, mask, now) == [Pair(src + rel, dst + rel)];
    } else {
      LookupConcat(fs, src + [c], rest);
      assert rest[|rest| - 1] == rel[|rel| - 1];
      assert Selected(fs, src + [c], dst + [c], mask, now, rest);
      ExpandComplete(fs, e.node, src + [c], dst + [c], mask, now, rest);
    }
    InExpand(fs, dir, i, src, dst, mask, now, Pair(src + rel, dst + rel));
  }

  /** A path extended by a relative path is the path extended by its first name, then by
      the rest. */
  lemma AppendFirst<T>(p: seq<T>, rel: seq<T>)
    requires |rel| >= 1
    ensures p + rel == (p + [rel[0]]) + rel[1..]
  {
    assert rel == [rel[0]] + rel[1..];
  }

  /** The descent yields exactly the selected files, each with its mirrored destination:
      the full tree under the recursive mask, the directory's own files otherwise, only
      files with the mask's extension under `*.ext`, and only stale ones. */
  lemma GetFilesExactly(fs: Fs, src: Path, dst: Path, mask: Mask, now: int)
    requires Valid(fs) && GetFiles(fs, src, dst, mask, now).Ok?
    ensures forall p :: p in GetFiles(fs, src, dst, mask, now).value ==> Produced(fs, src, dst, mask, now, p)
    ensures forall rel :: Selected(fs, src, dst, mask, now, rel) ==>
      Pair(src + rel, dst + rel) in GetFiles(fs, src, dst, mask, now).value
  {
    var dir := Lookup(fs, src).value;
    ExpandSound(fs, dir, |dir.entries|, src, dst, mask, now);
    forall rel | Selected(fs, src, dst, mask, now, rel)
      ensures Pair(src + rel, dst + rel) in GetFiles(fs, src, dst, mask, now).value
    {
      ExpandComplete(fs, dir, src, dst, mask, now, rel);
    }
  }
}
