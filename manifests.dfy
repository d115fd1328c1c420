/**
 * `Builder._buildManifests` and `_verifySourceFiles` (build.js): from a single build
 * description, the lists of files to copy, sources to compile and HTML pages to rewrite,
 * and the check that every listed source exists.
 */
module Manifests {
  import opened Wrappers
  import opened Strings
  import opened Paths
  import opened FileSystem
  import opened Expansion
  import opened BuildConfiguration

  const CompiledSourceExtension := ".min.js"
  const DefaultCompileOptions := "--compress --mangle"

  /** Where a build reads and writes: the description's directory, and the normalized
      source and destination directories it names. */
  datatype Layout = Layout(baseDir: NormalPath, sourceDir: NormalPath, destinationDir: NormalPath)

  /** A path in normal form, as `path.normalize` returns it. */
  type NormalPath = p: Path | Normal(p) witness []

  /** One source to compile, with its own copy of its header lines. */
  datatype CompileItem = CompileItem(
    source: Path,
    originalSource: Path,
    destination: Path,
    compileOptions: string,
    header: Option<seq<string>>,
    variables: Option<map<string, seq<string>>>,
    forcePreprocessor: bool)

  function SameAsDestination(p: Path): string {
    "Source file: \"" + PathString(p) + "\" cannot be the same as the destination!"
  }

  function MissingFile(p: Path): string {
    "Could not find file: " + PathString(p)
  }

  /** The directory the build reads its sources from: base directory, then source directory. */
  function SourceRoot(layout: Layout): Path {
    Join(layout.baseDir, layout.sourceDir)
  }

  /** What one `files` entry adds. A masked entry expands its directory when the mask is its
      last component and is one of the three shapes; a plain entry is taken when it is a
      file that is stale at its destination, and must not be its own destination. */
  function FilesEntry(fs: Fs, now: int, layout: Layout, entry: string): Result<seq<Pair>> {
    var source := Join(SourceRoot(layout), Parse(entry));
    var destination := Join(layout.destinationDir, Parse(entry));
    if '*' in entry then
      if StarFree(Paths.Dir(source)) && NameOf(Base(source)) == "*" then
        match MaskOf(Base(source))
        case None => Ok([])
        case Some(mask) =>
          // the directory of a one-component path is the empty string, which does not exist
          if Paths.Dir(source) == [] then Err("Could not locate path: ")
          else GetFiles(fs, Paths.Dir(source), Paths.Dir(destination), mask, now)
      else Ok([])
    else
      match Lookup(fs, source)
      case None => Err("ENOENT: no such file or directory, lstat '" + PathString(source) + "'")
      case Some(Dir(_, _)) => Ok([])
      case Some(File(m, _)) =>
        if Stale(fs, destination, m, now) then
          if source == destination then Err(SameAsDestination(source)) else Ok([Pair(source, destination)])
        else Ok([])
  }

  /** The files manifest: the entries' pairs in order, or the first error. */
  function FilesManifest(fs: Fs, now: int, layout: Layout, entries: seq<string>): Result<seq<Pair>>
    decreases |entries|
  {
    if entries == [] then Ok([])
    else
      match FilesManifest(fs, now, layout, entries[..|entries| - 1])
      case Err(e) => Err(e)
      case Ok(list) =>
        match FilesEntry(fs, now, layout, entries[|entries| - 1])
        case Err(e) => Err(e)
        case Ok(more) => Ok(list + more)
  }

  /** The output file name of a source entry, relative to the destination directory: the
      entry's directory with the base of `output_file`, or with the entry's name and `.min.js`. */
  function OutputFilename(e: SourceEntry): Path {
    var dir := Parse(StrDir(e.file));
    if e.outputFile.Some? && e.outputFile.value != "" then Join(dir, Parse(StrBase(e.outputFile.value)))
    else Join(dir, Parse(NameOf(StrBase(e.file)) + CompiledSourceExtension))
  }

  /** What one `sources` entry adds: nothing when it is masked, else its compile item. */
  function SourceItemOf(layout: Layout, e: SourceEntry): (r: Result<Option<CompileItem>>)
    ensures '*' in e.file ==> r == Ok(None)
    ensures r.Ok? && r.value.Some? ==>
      var c := r.value.value;
      c.source == Join(SourceRoot(layout), Parse(e.file)) &&
      c.originalSource == Join(layout.sourceDir, Parse(e.file)) &&
      c.destination == Join(layout.destinationDir, OutputFilename(e)) &&
      c.source != c.destination &&
      c.header == e.header && c.variables == e.variables && c.forcePreprocessor == e.preprocess &&
      c.compileOptions == (if e.compileOptions.Some? then e.compileOptions.value else DefaultCompileOptions)
    ensures r.Err? <==> '*' !in e.file && Join(SourceRoot(layout), Parse(e.file)) == Join(layout.destinationDir, OutputFilename(e))
  {
    if '*' in e.file then Ok(None)
    else
      var source := Join(SourceRoot(layout), Parse(e.file));
      var destination := Join(layout.destinationDir, OutputFilename(e));
      if source == destination then Err(SameAsDestination(source))
      else Ok(Some(CompileItem(source, Join(layout.sourceDir, Parse(e.file)), destination,
        e.compileOptions.GetOr(DefaultCompileOptions), e.header, e.variables, e.preprocess)))
  }

  function SourcesManifest(layout: Layout, entries: seq<SourceEntry>): Result<seq<CompileItem>>
    decreases |entries|
  {
    if entries == [] then Ok([])
    else
      match SourcesManifest(layout, entries[..|entries| - 1])
      case Err(e) => Err(e)
      case Ok(list) =>
        match SourceItemOf(layout, entries[|entries| - 1])
        case Err(e) => Err(e)
        case Ok(item) => Ok(list + (if item.Some? then [item.value] else []))
  }

  /** What one `html` entry adds: nothing when it is masked, else its pair. */
  function HtmlEntry(layout: Layout, entry: string): (r: Result<Option<Pair>>)
    ensures '*' in entry ==> r == Ok(None)
    ensures r.Ok? && r.value.Some? ==>
      r.value.value == Pair(Join(SourceRoot(layout), Parse(entry)), Join(layout.destinationDir, Parse(entry))) &&
      r.value.value.source != r.value.value.destination
    ensures r.Err? <==> '*' !in entry && Join(SourceRoot(layout), Parse(entry)) == Join(layout.destinationDir, Parse(entry))
  {
    if '*' in entry then Ok(None)
    else
      var source := Join(SourceRoot(layout), Parse(entry));
      var destination := Join(layout.destinationDir, Parse(entry));
      if source == destination then Err(SameAsDestination(source)) else Ok(Some(Pair(source, destination)))
  }

  function HtmlManifest(layout: Layout, entries: seq<string>): Result<seq<Pair>>
    decreases |entries|
  {
    if entries == [] then Ok([])
    else
      match HtmlManifest(layout, entries[..|entries| - 1])
      case Err(e) => Err(e)
      case Ok(list) =>
        match HtmlEntry(layout, entries[|entries| - 1])
        case Err(e) => Err(e)
        case Ok(item) => Ok(list + (if item.Some? then [item.value] else []))
  }

  /** The first source, in manifest order, that does not exist. */
  function FirstMissing(fs: Fs, sources: seq<Path>): (r: Option<Path>)
    ensures r.None? <==> forall i :: 0 <= i < |sources| ==> Exists(fs, sources[i])
    ensures r.Some? ==> r.value in sources && !Exists(fs, r.value)
    decreases |sources|
  {
    if sources == [] then None
    else if !Exists(fs, sources[0]) then Some(sources[0])
    else
      var r := FirstMissing(fs, sources[1..]);
      assert forall i :: 1 <= i < |sources| ==> sources[1..][i - 1] == sources[i];
      r
  }

  /** A plain `files` entry fails only when its source is missing: the source-equals-
      destination guard can never fire, since a file is never a second newer than itself. */
  lemma PlainEntryGuardUnreachable(fs: Fs, now: int, layout: Layout, entry: string)
    requires '*' !in entry
    ensures FilesEntry(fs, now, layout, entry).Err? <==> !Exists(fs, Join(SourceRoot(layout), Parse(entry)))
  {
  }

  /** A plain `files` entry is copied exactly when it names a file whose destination is
      missing or at least a second older. */
  lemma PlainEntryTaken(fs: Fs, now: int, layout: Layout, entry: string)
    requires '*' !in entry && Exists(fs, Join(SourceRoot(layout), Parse(entry)))
    ensures var source := Join(SourceRoot(layout), Parse(entry));
      var destination := Join(layout.destinationDir, Parse(entry));
      FilesEntry(fs, now, layout, entry) ==
        if Lookup(fs, source).value.File? && Stale(fs, destination, Lookup(fs, source).value.mtime, now)
        then Ok([Pair(source, destination)]) else Ok([])
  {
  }

  /** A mask in a directory component, or a last component other than `*`, `*.*` and
      `*.ext`, contributes nothing; a well-formed mask contributes its directory's descent. */
  lemma MaskedEntryShapes(fs: Fs, now: int, layout: Layout, entry: string)
    requires '*' in entry
    ensures var source := Join(SourceRoot(layout), Parse(entry));
      var destination := Join(layout.destinationDir, Parse(entry));
      (!StarFree(Paths.Dir(source)) ==> FilesEntry(fs, now, layout, entry) == Ok([])) &&
      (StarFree(Paths.Dir(source)) && NameOf(Base(source)) == "*" && Paths.Dir(source) != [] &&
        MaskOf(Base(source)).Some? ==>
        FilesEntry(fs, now, layout, entry) == GetFiles(fs, Paths.Dir(source), Paths.Dir(destination), MaskOf(Base(source)).value, now)) &&
      (Base(source) == "*." ==> FilesEntry(fs, now, layout, entry) == Ok([]))
  {
    var source := Join(SourceRoot(layout), Parse(entry));
    if Base(source) == "*." {
      assert NameOf("*.") == "*";
      MaskShapes("*.");
    }
  }

  /** The manifests keep the listing's order: each entry's pairs follow the earlier ones'. */
  lemma {:induction false} FilesManifestOrder(fs: Fs, now: int, layout: Layout, entries: seq<string>, k: nat)
    requires k <= |entries| && FilesManifest(fs, now, layout, entries).Ok?
    ensures FilesManifest(fs, now, layout, entries[..k]).Ok?
    ensures FilesManifest(fs, now, layout, entries[..k]).value <= FilesManifest(fs, now, layout, entries).value
    decreases |entries|
  {
    if k < |entries| {
      var init := entries[..|entries| - 1];
      assert entries[..k] == init[..k];
      FilesManifestOrder(fs, now, layout, init, k);
    } else {
      assert entries[..k] == entries;
    }
  }

  /** The unmasked entries of a `sources` listing, in order. */
  function Unmasked(entries: seq<SourceEntry>): (r: seq<SourceEntry>)
    ensures forall i :: 0 <= i < |r| ==> '*' !in r[i].file
    decreases |entries|
  {
    if entries == [] then []
    else
      var last := entries[|entries| - 1];
      Unmasked(entries[..|entries| - 1]) + (if '*' in last.file then [] else [last])
  }

  /** The sources manifest holds one item per unmasked entry, in order, each the item
      that entry yields on its own. */
  lemma {:induction false} SourcesManifestKeeps(layout: Layout, entries: seq<SourceEntry>)
    requires SourcesManifest(layout, entries).Ok?
    ensures var items := SourcesManifest(layout, entries).value;
      |items| == |Unmasked(entries)| &&
      forall i :: 0 <= i < |items| ==> SourceItemOf(layout, Unmasked(entries)[i]) == Ok(Some(items[i]))
    decreases |entries|
  {
    if entries != [] {
      SourcesManifestKeeps(layout, entries[..|entries| - 1]);
    }
  }
}
