/**
 * `Builder.build` (build.js) as a specification: a single build from its description,
 * as the log of what it does and the error that stops it. The three manifests, the
 * existence check and the header processing come first and either all succeed or the
 * build stops with nothing done; then files are copied, sources compiled and HTML pages
 * written, in that order, each step stopping at its first failure.
 */
module BuildSpec {
  import opened Wrappers
  import opened Strings
  import opened Paths
  import opened FileSystem
  import opened Expansion
  import opened JsonValues
  import opened ExternalTools
  import opened BuildConfiguration
  import opened Manifests
  import opened Headers
  import opened Effects
  import opened CompileStep
  import opened HtmlRewrite

  /** `path.normalize` given something that is not a string. */
  const NotAPath := "TypeError [ERR_INVALID_ARG_TYPE]: The \"path\" argument must be of type string"

  /** What a build works with besides its description: the file system it reads, the
      outside tools, the clock and the current year. */
  datatype Environment = Environment(fs: Fs, tools: Tools, now: int, year: nat)

  /** The builder's directories: the description's own directory, and the source and
      destination directories normalized, which fails unless both are strings. */
  function LayoutOf(baseDir: string, sourceDir: Json, destinationDir: Json): (r: Result<Layout>)
    ensures r.Ok? <==> sourceDir.JString? && destinationDir.JString?
    ensures r.Err? ==> r.error == NotAPath
  {
    if sourceDir.JString? && destinationDir.JString?
    then Ok(Layout(Parse(baseDir), Parse(sourceDir.s), Parse(destinationDir.s)))
    else Err(NotAPath)
  }

  /** The sources the existence check visits: files, then sources, then HTML pages. */
  function CheckedSources(files: seq<Pair>, sources: seq<CompileItem>, html: seq<Pair>): seq<Path> {
    seq(|files|, i requires 0 <= i < |files| => files[i].source) +
    seq(|sources|, i requires 0 <= i < |sources| => sources[i].source) +
    seq(|html|, i requires 0 <= i < |html| => html[i].source)
  }

  /** The existence check's error: the first listed source that does not exist. */
  function MissingError(fs: Fs, sources: seq<Path>): (r: Option<string>)
    ensures r.None? <==> forall i :: 0 <= i < |sources| ==> Exists(fs, sources[i])
  {
    match FirstMissing(fs, sources)
    case None => None
    case Some(p) => Some(MissingFile(p))
  }

  function Copies(files: seq<Pair>): (r: seq<Effect>)
    ensures |r| == |files| && forall i :: 0 <= i < |files| ==> r[i] == Copy(files[i].source, files[i].destination)
  {
    seq(|files|, i requires 0 <= i < |files| => Copy(files[i].source, files[i].destination))
  }

  /** The sources compiled in manifest order, up to the first failure. */
  function CompileAll(env: Environment, variables: seq<string>, items: seq<CompileItem>): Outcome
    decreases |items|
  {
    if items == [] then Outcome([], None)
    else Then(CompileOne(env.fs, env.tools, variables, items[0]), CompileAll(env, variables, items[1..]))
  }

  /** The pages written in manifest order, up to the first failure. */
  function HtmlAll(env: Environment, sourceDir: NormalPath, manifest: seq<CompileItem>, pages: seq<Pair>): Outcome
    decreases |pages|
  {
    if pages == [] then Outcome([], None)
    else Then(HtmlOne(env.fs, env.tools, sourceDir, manifest, pages[0]), HtmlAll(env, sourceDir, manifest, pages[1..]))
  }

  /** The manifests of a single description, or the first error building them. */
  function AllManifests(env: Environment, layout: Layout, data: ConfigData): Result<(seq<Pair>, seq<CompileItem>, seq<Pair>)>
    requires data.Single?
  {
    match FilesManifest(env.fs, env.now, layout, data.files)
    case Err(e) => Err(e)
    case Ok(files) =>
      match SourcesManifest(layout, data.sources)
      case Err(e) => Err(e)
      case Ok(sources) =>
        match HtmlManifest(layout, data.html)
        case Err(e) => Err(e)
        case Ok(html) => Ok((files, sources, html))
  }

  /** Everything before the first file is touched: the manifests, the existence check and
      the headers. Gives the files, the processed sources and the pages to write. */
  function Prepared(env: Environment, layout: Layout, data: ConfigData): Result<(seq<Pair>, seq<CompileItem>, seq<Pair>)>
    requires data.Single?
  {
    match AllManifests(env, layout, data)
    case Err(e) => Err(e)
    case Ok((files, sources, html)) =>
      match MissingError(env.fs, CheckedSources(files, sources, html))
      case Some(e) => Err(e)
      case None =>
        match ProcessHeaders(env.fs, env.tools, env.year, sources)
        case Err(e) => Err(e)
        case Ok(processed) => Ok((files, processed, html))
  }

  /** The three steps: copy the files, compile the sources, write the pages. */
  function Steps(env: Environment, layout: Layout, variables: seq<string>,
    files: seq<Pair>, sources: seq<CompileItem>, html: seq<Pair>): Outcome
  {
    Then(Then(Outcome(Copies(files), None), CompileAll(env, variables, sources)),
      HtmlAll(env, layout.sourceDir, sources, html))
  }

  /** The steps' log: the copies, the compilations up to the first failure and, when all
      compiled, the pages up to the first failure. */
  lemma StepsShape(env: Environment, layout: Layout, variables: seq<string>,
    files: seq<Pair>, sources: seq<CompileItem>, html: seq<Pair>)
    ensures var c := CompileAll(env, variables, sources);
      var h := HtmlAll(env, layout.sourceDir, sources, html);
      Steps(env, layout, variables, files, sources, html) ==
        if c.error.Some? then Outcome(Copies(files) + c.effects, c.error)
        else Outcome(Copies(files) + c.effects + h.effects, h.error)
  {
  }

  /** The single build: preparation, then the three steps. */
  function SingleBuild(env: Environment, layout: Layout, data: ConfigData, variables: seq<string>): Outcome
    requires data.Single?
  {
    match Prepared(env, layout, data)
    case Err(e) => Outcome([], Some(e))
    case Ok((files, sources, html)) => Steps(env, layout, variables, files, sources, html)
  }

  /** The files a log shows updated: copies and writes. */
  function Updates(effects: seq<Effect>): nat
    decreases |effects|
  {
    if effects == [] then 0
    else
      var last := effects[|effects| - 1];
      Updates(effects[..|effects| - 1]) + (if last.Copy? || last.Write? then 1 else 0)
  }

  lemma {:induction false} UpdatesConcat(a: seq<Effect>, b: seq<Effect>)
    ensures Updates(a + b) == Updates(a) + Updates(b)
    decreases |b|
  {
    if b != [] {
      var init := b[..|b| - 1];
      UpdatesConcat(a, init);
      assert (a + b)[..|a + b| - 1] == a + init;
      assert (a + b)[|a + b| - 1] == b[|b| - 1];
    } else {
      assert a + b == a;
    }
  }

  /** A log of commands and removals updates no file. */
  lemma {:induction false} NoUpdates(effects: seq<Effect>)
    requires forall i :: 0 <= i < |effects| ==> !effects[i].Copy? && !effects[i].Write?
    ensures Updates(effects) == 0
    decreases |effects|
  {
    if effects != [] {
      NoUpdates(effects[..|effects| - 1]);
    }
  }

  lemma FinishUpdates(tools: Tools, item: CompileItem, input: Path, text: Option<string>, before: seq<Effect>, pre: Option<Path>)
    requires forall i :: 0 <= i < |before| ==> before[i].Preprocess?
    ensures var o := Finish(tools, item, input, text, before, pre);
      Updates(o.effects) == if o.error.None? then 1 else 0
  {
    var cmp := Suffixed(item.destination, CompileFileExtension);
    var ran := before + [Compile(input, cmp, item.compileOptions)];
    NoUpdates(ran);
    var o := Finish(tools, item, input, text, before, pre);
    if o.error.None? {
      var compiled := tools.compile(text.value, item.compileOptions).value;
      var w := Write(item.destination, CompiledOutput(item.header, compiled));
      var tail := [Remove(cmp)] + (if pre.Some? then [Remove(pre.value)] else []);
      assert o.effects == (ran + [w]) + tail;
      NoUpdates(tail);
      UpdatesConcat(ran + [w], tail);
      assert (ran + [w])[..|ran + [w]| - 1] == ran;
    }
  }

  /** One source updates one file when it compiles, and none when it fails. */
  lemma CompileOneUpdates(fs: Fs, tools: Tools, variables: seq<string>, item: CompileItem)
    ensures Updates(CompileOne(fs, tools, variables, item).effects) ==
      if CompileOne(fs, tools, variables, item).error.None? then 1 else 0
  {
    if UsePreprocessor(item, variables) {
      match PreprocessorParams(item, variables)
      case Err(e) =>
      case Ok(params) =>
        var p := JoinWith(params, " ");
        var pre := Suffixed(item.destination, PreprocessFileExtension);
        var ran := [Preprocess(item.source, pre, p)];
        var text := match ReadFile(fs, item.source)
          case Ok(content) => tools.preprocess(content, p)
          case Err(_) => None;
        if text.None? {
          NoUpdates(ran);
        } else {
          FinishUpdates(tools, item, pre, text, ran, Some(pre));
        }
    } else {
      var source := ReadFile(fs, item.source);
      FinishUpdates(tools, item, item.source, if source.Ok? then Some(source.value) else None, [], None);
    }
  }

  /** A successful build reports as updated exactly one file per manifest entry. */
  lemma SuccessfulBuildCount(env: Environment, layout: Layout, data: ConfigData, variables: seq<string>)
    requires data.Single? && SingleBuild(env, layout, data, variables).error.None?
    ensures Prepared(env, layout, data).Ok?
    ensures var prepared := Prepared(env, layout, data).value;
      Updates(SingleBuild(env, layout, data, variables).effects) == |prepared.0| + |prepared.1| + |prepared.2|
  {
    var files, sources, html := SuccessShape(env, layout, data, variables);
    var c := CompileAll(env, variables, sources);
    var h := HtmlAll(env, layout.sourceDir, sources, html);
    CopiesCount(files);
    CompileAllCount(env, variables, sources);
    HtmlAllCount(env, layout.sourceDir, sources, html);
    UpdatesConcat(Copies(files), c.effects);
    UpdatesConcat(Copies(files) + c.effects, h.effects);
  }

  lemma {:induction false} CopiesCount(files: seq<Pair>)
    ensures Updates(Copies(files)) == |files|
    decreases |files|
  {
    if files != [] {
      var init := files[..|files| - 1];
      CopiesCount(init);
      assert Copies(files)[..|files| - 1] == Copies(init);
    }
  }

  lemma {:induction false} CompileAllCount(env: Environment, variables: seq<string>, items: seq<CompileItem>)
    requires CompileAll(env, variables, items).error.None?
    ensures Updates(CompileAll(env, variables, items).effects) == |items|
    decreases |items|
  {
    if items != [] {
      var o := CompileOne(env.fs, env.tools, variables, items[0]);
      CompileOneUpdates(env.fs, env.tools, variables, items[0]);
      CompileAllCount(env, variables, items[1..]);
      UpdatesConcat(o.effects, CompileAll(env, variables, items[1..]).effects);
    }
  }

  lemma {:induction false} HtmlAllCount(env: Environment, sourceDir: NormalPath, manifest: seq<CompileItem>, pages: seq<Pair>)
    requires HtmlAll(env, sourceDir, manifest, pages).error.None?
    ensures Updates(HtmlAll(env, sourceDir, manifest, pages).effects) == |pages|
    decreases |pages|
  {
    if pages != [] {
      var o := HtmlOne(env.fs, env.tools, sourceDir, manifest, pages[0]);
      HtmlAllCount(env, sourceDir, manifest, pages[1..]);
      UpdatesConcat(o.effects, HtmlAll(env, sourceDir, manifest, pages[1..]).effects);
      assert Updates(o.effects) == 1 by {
        assert o.effects == [] + [o.effects[0]];
      }
    }
  }

  /** A failure while preparing leaves the outside world untouched. */
  lemma PreparationFailureTouchesNothing(env: Environment, layout: Layout, data: ConfigData, variables: seq<string>)
    requires data.Single? && Prepared(env, layout, data).Err?
    ensures SingleBuild(env, layout, data, variables) == Outcome([], Some(Prepared(env, layout, data).error))
  {
  }

  /** Some write to `path` is in the log. */
  ghost predicate Written(effects: seq<Effect>, path: Path) {
    exists text :: Write(path, text) in effects
  }

  /** A successful build's log: the copies, then the compilations, then the pages. */
  lemma SuccessShape(env: Environment, layout: Layout, data: ConfigData, variables: seq<string>)
    returns (files: seq<Pair>, sources: seq<CompileItem>, html: seq<Pair>)
    requires data.Single? && SingleBuild(env, layout, data, variables).error.None?
    ensures Prepared(env, layout, data) == Ok((files, sources, html))
    ensures CompileAll(env, variables, sources).error.None?
    ensures HtmlAll(env, layout.sourceDir, sources, html).error.None?
    ensures SingleBuild(env, layout, data, variables).effects ==
      Copies(files) + CompileAll(env, variables, sources).effects + HtmlAll(env, layout.sourceDir, sources, html).effects
  {
    files, sources, html := Prepared(env, layout, data).value.0, Prepared(env, layout, data).value.1, Prepared(env, layout, data).value.2;
  }

  /** A successful build copies every file of the files manifest, and writes every
      compiled source's destination and every page's destination. */
  lemma SuccessfulBuildWrites(env: Environment, layout: Layout, data: ConfigData, variables: seq<string>)
    requires data.Single? && SingleBuild(env, layout, data, variables).error.None?
    ensures Prepared(env, layout, data).Ok?
    ensures var prepared := Prepared(env, layout, data).value;
      var es := SingleBuild(env, layout, data, variables).effects;
      (forall i :: 0 <= i < |prepared.0| ==> Copy(prepared.0[i].source, prepared.0[i].destination) in es) &&
      (forall i :: 0 <= i < |prepared.1| ==> Written(es, prepared.1[i].destination)) &&
      (forall i :: 0 <= i < |prepared.2| ==> Written(es, prepared.2[i].destination))
  {
    var files, sources, html := SuccessShape(env, layout, data, variables);
    var c := CompileAll(env, variables, sources).effects;
    var h := HtmlAll(env, layout.sourceDir, sources, html).effects;
    var es := SingleBuild(env, layout, data, variables).effects;
    forall i | 0 <= i < |files| ensures Copy(files[i].source, files[i].destination) in es {
      assert es[i] == Copies(files)[i];
    }
    forall i | 0 <= i < |sources| ensures Written(es, sources[i].destination) {
      var text := CompileAllWrites(env, variables, sources, i);
      assert Write(sources[i].destination, text) in es;
    }
    forall i | 0 <= i < |html| ensures Written(es, html[i].destination) {
      var text := HtmlAllWrites(env, layout.sourceDir, sources, html, i);
      assert Write(html[i].destination, text) in es;
    }
  }

  lemma {:induction false} CompileAllWrites(env: Environment, variables: seq<string>, items: seq<CompileItem>, i: nat)
    returns (text: string)
    requires i < |items| && CompileAll(env, variables, items).error.None?
    ensures Write(items[i].destination, text) in CompileAll(env, variables, items).effects
    decreases i
  {
    var o := CompileOne(env.fs, env.tools, variables, items[0]);
    var rest := CompileAll(env, variables, items[1..]);
    if i == 0 {
      CompileOneEffects(env.fs, env.tools, variables, items[0]);
      var k := |o.effects| - (if UsePreprocessor(items[0], variables) then 3 else 2);
      var compiled :| o.effects[k..] == [Write(items[0].destination, CompiledOutput(items[0].header, compiled)),
        Remove(Suffixed(items[0].destination, CompileFileExtension))] +
        (if UsePreprocessor(items[0], variables) then [Remove(Suffixed(items[0].destination, PreprocessFileExtension))] else []);
      text := CompiledOutput(items[0].header, compiled);
      assert o.effects[k] == Write(items[0].destination, text);
      assert (o.effects + rest.effects)[k] == o.effects[k];
    } else {
      text := CompileAllWrites(env, variables, items[1..], i - 1);
      assert Write(items[i].destination, text) in rest.effects;
    }
  }

  lemma {:induction false} HtmlAllWrites(env: Environment, sourceDir: NormalPath, manifest: seq<CompileItem>, pages: seq<Pair>, i: nat)
    returns (text: string)
    requires i < |pages| && HtmlAll(env, sourceDir, manifest, pages).error.None?
    ensures Write(pages[i].destination, text) in HtmlAll(env, sourceDir, manifest, pages).effects
    decreases i
  {
    var o := HtmlOne(env.fs, env.tools, sourceDir, manifest, pages[0]);
    var rest := HtmlAll(env, sourceDir, manifest, pages[1..]);
    if i == 0 {
      text := o.effects[0].content;
      assert (o.effects + rest.effects)[0] == o.effects[0];
    } else {
      text := HtmlAllWrites(env, sourceDir, manifest, pages[1..], i - 1);
      assert Write(pages[i].destination, text) in rest.effects;
    }
  }

  /** Visiting the three manifests one after another finds the same missing source as
      visiting their concatenation. */
  lemma {:induction false} FirstMissingConcat(fs: Fs, a: seq<Path>, b: seq<Path>)
    ensures FirstMissing(fs, a + b) == if FirstMissing(fs, a).Some? then FirstMissing(fs, a) else FirstMissing(fs, b)
    decreases |a|
  {
    if a == [] {
      assert a + b == b;
    } else {
      var ab := a + b;
      assert ab[0] == a[0];
      if Exists(fs, a[0]) {
        assert ab[1..] == a[1..] + b;
        FirstMissingConcat(fs, a[1..], b);
      }
    }
  }
}
