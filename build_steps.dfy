/**
 * The per-entry work of `Builder` (build.js) as the loops that do it, each proved to compute
 * the specification function of its step, and the facts the builder's loops need about
 * the manifests: a manifest that has failed on a prefix of its listing fails as a whole
 * with the same error.
 */
module BuildSteps {
  import opened Wrappers
  import opened Strings
  import opened Paths
  import opened FileSystem
  import opened Expansion
  import opened ExternalTools
  import opened BuildConfiguration
  import opened Manifests
  import opened Headers
  import opened Effects
  import opened CompileStep
  import opened HtmlRewrite
  import opened BuildSpec

  /** One `files` entry, as `buildFilesManifest` handles it. */
  method FilesEntryPairs(fs: Fs, now: int, layout: Layout, entry: string) returns (r: Result<seq<Pair>>)
    requires Valid(fs)
    ensures r == FilesEntry(fs, now, layout, entry)
  {
    var source := Join(SourceRoot(layout), Parse(entry));
    var destination := Join(layout.destinationDir, Parse(entry));
    r := Ok([]);
    if '*' in entry {
      if StarFree(Paths.Dir(source)) && NameOf(Base(source)) == "*" {
        var mask := MaskOf(Base(source));
        if mask.Some? {
          if Paths.Dir(source) == [] {
            r := Err("Could not locate path: ");
          } else {
            r := GetFilesWithRecursiveDescent(fs, Paths.Dir(source), Paths.Dir(destination), mask.value, now);
          }
        }
      }
    } else {
      var node := Lookup(fs, source);
      if node.None? {
        r := Err("ENOENT: no such file or directory, lstat '" + PathString(source) + "'");
      } else if node.value.File? && Stale(fs, destination, node.value.mtime, now) {
        if source == destination {
          r := Err(SameAsDestination(source));
        } else {
          r := Ok([Pair(source, destination)]);
        }
      }
    }
  }

  /** `verifyManifest`: the sources visited in order, the first missing one reported. */
  method VerifyManifest(fs: Fs, sources: seq<Path>) returns (missing: Option<Path>)
    ensures missing == FirstMissing(fs, sources)
  {
    for i := 0 to |sources|
      invariant FirstMissing(fs, sources) == FirstMissing(fs, sources[i..])
    {
      assert sources[i..][1..] == sources[i + 1..];
      if !Exists(fs, sources[i]) {
        return Some(sources[i]);
      }
    }
    return None;
  }

  /** The `every` over the header lines, stopping at the first line with something to
      substitute. */
  method DetectVariables(header: seq<string>) returns (found: bool)
    ensures found == NeedsSubstitution(header)
  {
    found := false;
    var i := 0;
    while i < |header|
      invariant i <= |header|
      invariant forall k :: 0 <= k < i ==> !HasVariables(header[k])
    {
      if HasVariables(header[i]) {
        found := true;
        return;
      }
      i := i + 1;
    }
  }

  /** The nested substitution loops: every line gets each tag's placeholders replaced in
      turn, then the year. */
  method SubstituteLines(header: seq<string>, tags: seq<(string, string)>, year: nat) returns (r: seq<string>)
    ensures r == SubstituteHeader(header, tags, year)
  {
    r := header;
    for i := 0 to |header|
      invariant |r| == |header|
      invariant forall k :: 0 <= k < i ==> r[k] == SubstituteLine(header[k], tags, year)
      invariant forall k :: i <= k < |header| ==> r[k] == header[k]
    {
      var line := r[i];
      for j := 0 to |tags|
        invariant line == SubstituteTags(header[i], tags[..j])
      {
        assert tags[..j + 1][..j] == tags[..j];
        line := ReplaceAll(line, Placeholder(tags[j].0), tags[j].1);
      }
      assert tags[..|tags|] == tags;
      line := ReplaceAll(line, YearVariable, DecimalString(year));
      r := r[i := line];
    }
  }

  /** The body of the compile loop for one source: decide on the preprocessor, build its
      parameters, run it, run the compiler, write the header and the compiled code, remove
      the temporary files. */
  method CompileSource(fs: Fs, tools: Tools, variables: seq<string>, item: CompileItem) returns (o: Outcome)
    ensures o == CompileOne(fs, tools, variables, item)
  {
    var use := DecidePreprocessor(item, variables);
    var ran: seq<Effect> := [];
    var input := item.source;
    var pre: Option<Path> := None;
    var text: Option<string>;
    if use {
      var params := CollectParams(item, variables);
      if params.Err? {
        return Outcome([], Some(params.error));
      }
      var p := JoinWith(params.value, " ");
      var preFile := Suffixed(item.destination, PreprocessFileExtension);
      ran := [Preprocess(item.source, preFile, p)];
      var read := ReadFile(fs, item.source);
      text := if read.Ok? then tools.preprocess(read.value, p) else None;
      if text.None? {
        return Outcome(ran, Some(CommandFailed(PreprocessCommand(item.source, p, preFile))));
      }
      input := preFile;
      pre := Some(preFile);
    } else {
      var read := ReadFile(fs, item.source);
      text := if read.Ok? then Some(read.value) else None;
    }
    var cmp := Suffixed(item.destination, CompileFileExtension);
    ran := ran + [Compile(input, cmp, item.compileOptions)];
    var compiled := if text.Some? then tools.compile(text.value, item.compileOptions) else None;
    if compiled.None? {
      return Outcome(ran, Some(CommandFailed(CompileCommand(input, item.compileOptions, cmp))));
    }
    ran := ran + [Write(item.destination, CompiledOutput(item.header, compiled.value)), Remove(cmp)];
    if pre.Some? {
      ran := ran + [Remove(pre.value)];
    }
    o := Outcome(ran, None);
  }

  /** `buildFilesManifest`: the entries' pairs concatenated in order. */
  method CollectFilesManifest(fs: Fs, now: int, layout: Layout, listing: seq<string>) returns (r: Result<seq<Pair>>)
    requires Valid(fs)
    ensures r == FilesManifest(fs, now, layout, listing)
  {
    var manifest: seq<Pair> := [];
    for i := 0 to |listing|
      invariant FilesManifest(fs, now, layout, listing[..i]) == Ok(manifest)
    {
      assert listing[..i + 1][..i] == listing[..i];
      var more := FilesEntryPairs(fs, now, layout, listing[i]);
      if more.Err? {
        FilesErrorPersists(fs, now, layout, listing, i + 1);
        return Err(more.error);
      }
      manifest := manifest + more.value;
    }
    assert listing[..|listing|] == listing;
    return Ok(manifest);
  }

  /** `buildSourcesManifest`: one compile item pushed per unmasked entry. */
  method CollectSourcesManifest(layout: Layout, listing: seq<SourceEntry>) returns (r: Result<seq<CompileItem>>)
    ensures r == SourcesManifest(layout, listing)
  {
    var manifest: seq<CompileItem> := [];
    for i := 0 to |listing|
      invariant SourcesManifest(layout, listing[..i]) == Ok(manifest)
    {
      assert listing[..i + 1][..i] == listing[..i];
      var item := SourceItemOf(layout, listing[i]);
      if item.Err? {
        SourcesManifestErrorPersists(layout, listing, i + 1);
        return Err(item.error);
      }
      manifest := manifest + if item.value.Some? then [item.value.value] else [];
    }
    assert listing[..|listing|] == listing;
    return Ok(manifest);
  }

  /** `buildHTMLManifest`: one pair pushed per unmasked entry. */
  method CollectHtmlManifest(layout: Layout, listing: seq<string>) returns (r: Result<seq<Pair>>)
    ensures r == HtmlManifest(layout, listing)
  {
    var manifest: seq<Pair> := [];
    for i := 0 to |listing|
      invariant HtmlManifest(layout, listing[..i]) == Ok(manifest)
    {
      assert listing[..i + 1][..i] == listing[..i];
      var page := HtmlEntry(layout, listing[i]);
      if page.Err? {
        HtmlErrorPersists(layout, listing, i + 1);
        return Err(page.error);
      }
      manifest := manifest + if page.value.Some? then [page.value.value] else [];
    }
    assert listing[..|listing|] == listing;
    return Ok(manifest);
  }

  /** One entry of the header loop. */
  method ProcessOneHeader(fs: Fs, tools: Tools, year: nat, item: CompileItem) returns (r: Result<Option<seq<string>>>)
    ensures r == ProcessedHeader(fs, tools, year, item)
  {
    if item.header.None? {
      return Ok(None);
    }
    var header := item.header.value;
    var hasVariables := DetectVariables(header);
    if !hasVariables {
      return Ok(Some(header));
    }
    var content := ReadFile(fs, item.source);
    if content.Err? {
      return Err(content.error);
    }
    var substituted := SubstituteLines(header, tools.jsDocTags(content.value), year);
    return Ok(Some(substituted));
  }

  /** The list after its entry i is replaced: the prefix grows by the new entry and the
      rest is still the original's. */
  lemma UpdateStep<T>(list: seq<T>, original: seq<T>, i: nat, x: T)
    requires i < |list| == |original| && list[i..] == original[i..]
    ensures list[i := x][..i + 1] == list[..i] + [x]
    ensures list[i := x][i + 1..] == original[i + 1..]
  {
    assert list[i + 1..] == list[i..][1..];
  }

  lemma TakeAll<T>(list: seq<T>)
    ensures list[..|list|] == list
  {
  }

  /** One more entry whose header is replaced without error. */
  lemma HeadersStep(fs: Fs, tools: Tools, year: nat, items: seq<CompileItem>, i: nat, done: seq<CompileItem>)
    requires i < |items| && ProcessHeaders(fs, tools, year, items[..i]) == Ok(done)
    requires ProcessedHeader(fs, tools, year, items[i]).Ok?
    ensures ProcessHeaders(fs, tools, year, items[..i + 1]) ==
      Ok(done + [items[i].(header := ProcessedHeader(fs, tools, year, items[i]).value)])
  {
    assert items[..i + 1][..i] == items[..i];
  }

  /** `_processSourceHeaders`: the entries' headers replaced one by one. */
  method ProcessHeaderList(fs: Fs, tools: Tools, year: nat, items: seq<CompileItem>) returns (r: Result<seq<CompileItem>>)
    ensures r == ProcessHeaders(fs, tools, year, items)
  {
    var manifest := items;
    for i := 0 to |items|
      invariant |manifest| == |items|
      invariant ProcessHeaders(fs, tools, year, items[..i]) == Ok(manifest[..i])
      invariant manifest[i..] == items[i..]
    {
      assert items[..i + 1][..i] == items[..i];
      assert manifest[i] == items[i];
      var processed := ProcessOneHeader(fs, tools, year, manifest[i]);
      if processed.Err? {
        HeadersErrorPersists(fs, tools, year, items, i + 1);
        return Err(processed.error);
      }
      var updated := manifest[i].(header := processed.value);
      HeadersStep(fs, tools, year, items, i, manifest[..i]);
      UpdateStep(manifest, items, i, updated);
      manifest := manifest[i := updated];
    }
    TakeAll(items);
    TakeAll(manifest);
    return Ok(manifest);
  }

  /** One more source compiled: either the run stops with its error, or it goes on from
      the next source with the longer log. */
  lemma CompileAllStep(env: Environment, variables: seq<string>, items: seq<CompileItem>, i: nat, done: seq<Effect>)
    requires i < |items|
    requires Then(Outcome(done, None), CompileAll(env, variables, items[i..])) == CompileAll(env, variables, items)
    ensures var o := CompileOne(env.fs, env.tools, variables, items[i]);
      if o.error.Some? then CompileAll(env, variables, items) == Outcome(done + o.effects, o.error)
      else Then(Outcome(done + o.effects, None), CompileAll(env, variables, items[i + 1..])) == CompileAll(env, variables, items)
  {
    assert items[i..][1..] == items[i + 1..];
    ThenStep(done, CompileOne(env.fs, env.tools, variables, items[i]), CompileAll(env, variables, items[i + 1..]));
  }

  /** One more page written, likewise. */
  lemma HtmlAllStep(env: Environment, sourceDir: NormalPath, manifest: seq<CompileItem>, pages: seq<Pair>, i: nat, done: seq<Effect>)
    requires i < |pages|
    requires Then(Outcome(done, None), HtmlAll(env, sourceDir, manifest, pages[i..])) == HtmlAll(env, sourceDir, manifest, pages)
    ensures var o := HtmlOne(env.fs, env.tools, sourceDir, manifest, pages[i]);
      if o.error.Some? then HtmlAll(env, sourceDir, manifest, pages) == Outcome(done + o.effects, o.error)
      else Then(Outcome(done + o.effects, None), HtmlAll(env, sourceDir, manifest, pages[i + 1..])) == HtmlAll(env, sourceDir, manifest, pages)
  {
    assert pages[i..][1..] == pages[i + 1..];
    ThenStep(done, HtmlOne(env.fs, env.tools, sourceDir, manifest, pages[i]), HtmlAll(env, sourceDir, manifest, pages[i + 1..]));
  }

  /** A run that has reached the end of its list has succeeded with the log so far. */
  lemma ThenDone(done: seq<Effect>)
    ensures Then(Outcome(done, None), Outcome([], None)) == Outcome(done, None)
  {
    assert done + [] == done;
  }

  /** The outcome of the rest of a run, once the next step's outcome is known. */
  lemma ThenStep(done: seq<Effect>, o: Outcome, rest: Outcome)
    ensures Then(Outcome(done, None), Then(o, rest)) ==
      if o.error.Some? then Outcome(done + o.effects, o.error) else Then(Outcome(done + o.effects, None), rest)
  {
    if o.error.None? {
      assert done + (o.effects + rest.effects) == (done + o.effects) + rest.effects;
    }
  }

  lemma {:induction false} FilesErrorPersists(fs: Fs, now: int, layout: Layout, entries: seq<string>, k: nat)
    requires k <= |entries| && FilesManifest(fs, now, layout, entries[..k]).Err?
    ensures FilesManifest(fs, now, layout, entries) == FilesManifest(fs, now, layout, entries[..k])
    decreases |entries| - k
  {
    if k < |entries| {
      assert entries[..k + 1][..k] == entries[..k];
      FilesErrorPersists(fs, now, layout, entries, k + 1);
    } else {
      assert entries[..k] == entries;
    }
  }

  lemma {:induction false} SourcesManifestErrorPersists(layout: Layout, entries: seq<SourceEntry>, k: nat)
    requires k <= |entries| && SourcesManifest(layout, entries[..k]).Err?
    ensures SourcesManifest(layout, entries) == SourcesManifest(layout, entries[..k])
    decreases |entries| - k
  {
    if k < |entries| {
      assert entries[..k + 1][..k] == entries[..k];
      SourcesManifestErrorPersists(layout, entries, k + 1);
    } else {
      assert entries[..k] == entries;
    }
  }

  lemma {:induction false} HtmlErrorPersists(layout: Layout, entries: seq<string>, k: nat)
    requires k <= |entries| && HtmlManifest(layout, entries[..k]).Err?
    ensures HtmlManifest(layout, entries) == HtmlManifest(layout, entries[..k])
    decreases |entries| - k
  {
    if k < |entries| {
      assert entries[..k + 1][..k] == entries[..k];
      HtmlErrorPersists(layout, entries, k + 1);
    } else {
      assert entries[..k] == entries;
    }
  }

  lemma {:induction false} HeadersErrorPersists(fs: Fs, tools: Tools, year: nat, items: seq<CompileItem>, k: nat)
    requires k <= |items| && ProcessHeaders(fs, tools, year, items[..k]).Err?
    ensures ProcessHeaders(fs, tools, year, items) == ProcessHeaders(fs, tools, year, items[..k])
    decreases |items|
  {
    if k < |items| {
      var init := items[..|items| - 1];
      assert init[..k] == items[..k];
      HeadersErrorPersists(fs, tools, year, init, k);
      HeadersErrorStep(fs, tools, year, items);
    } else {
      TakeAll(items);
    }
  }

  /** An error among all but the last header is still the outcome with the last. */
  lemma HeadersErrorStep(fs: Fs, tools: Tools, year: nat, items: seq<CompileItem>)
    requires items != [] && ProcessHeaders(fs, tools, year, items[..|items| - 1]).Err?
    ensures ProcessHeaders(fs, tools, year, items) == ProcessHeaders(fs, tools, year, items[..|items| - 1])
  {
  }
}
