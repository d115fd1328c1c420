/**
 * `Builder` (build.js): a single build, run step by step on the builder's own state — the
 * three manifests it fills, the count of files it has updated and the log of what it has
 * done. Each step is proved to do what the build specification says, and the builder keeps
 * its count equal to the number of copies and writes in its log.
 */
module Builds {
  import opened Wrappers
  import opened Strings
  import opened Paths
  import opened FileSystem
  import opened Expansion
  import opened JsonValues
  import opened ExternalTools
  import opened BuildConfiguration
  import opened Manifests
  import opened Headers
  import opened Effects
  import opened CompileStep
  import opened HtmlRewrite
  import opened BuildSpec
  import opened BuildSteps

  class Builder {
    const env: Environment
    const layout: Layout
    /** The description's data; always a single build. */
    const config: ConfigData
    /** The `-variable` parameters the build was started with. */
    const variables: seq<string>
    var filesManifest: seq<Pair>
    var sourcesManifest: seq<CompileItem>
    var htmlManifest: seq<Pair>
    /** `_n_files_updated` */
    var filesUpdated: nat
    /** What the build has done to the outside world so far. */
    var effects: seq<Effect>

    /** The builder is for a single build over a well-formed file system, and its count is
        the number of files its log shows updated. */
    ghost predicate Consistent()
      reads this
    {
      config.Single? && Valid(env.fs) && filesUpdated == Updates(effects)
    }

    constructor (env: Environment, layout: Layout, config: ConfigData, variables: seq<string>)
      requires config.Single? && Valid(env.fs)
      ensures this.env == env && this.layout == layout && this.config == config && this.variables == variables
      ensures filesManifest == [] && sourcesManifest == [] && htmlManifest == []
      ensures filesUpdated == 0 && effects == []
      ensures Consistent()
    {
      this.env := env;
      this.layout := layout;
      this.config := config;
      this.variables := variables;
      filesManifest := [];
      sourcesManifest := [];
      htmlManifest := [];
      filesUpdated := 0;
      effects := [];
    }

    /** `_buildManifests`: files, then sources, then HTML, stopping at the first error. */
    method BuildManifests() returns (error: Option<string>)
      requires Consistent()
      modifies this
      ensures Consistent() && effects == old(effects) && filesUpdated == old(filesUpdated)
      ensures error.None? <==> AllManifests(env, layout, config).Ok?
      ensures error.Some? ==> AllManifests(env, layout, config) == Err(error.value)
      ensures error.None? ==> AllManifests(env, layout, config).value == (filesManifest, sourcesManifest, htmlManifest)
    {
      filesManifest, sourcesManifest, htmlManifest := [], [], [];
      var files := CollectFilesManifest(env.fs, env.now, layout, config.files);
      if files.Err? {
        return Some(files.error);
      }
      filesManifest := files.value;
      var sources := CollectSourcesManifest(layout, config.sources);
      if sources.Err? {
        return Some(sources.error);
      }
      sourcesManifest := sources.value;
      var html := CollectHtmlManifest(layout, config.html);
      if html.Err? {
        return Some(html.error);
      }
      htmlManifest := html.value;
      return None;
    }

    /** `_verifySourceFiles`: the first source of the three manifests that does not exist. */
    method VerifySourceFiles() returns (error: Option<string>)
      ensures error == MissingError(env.fs, CheckedSources(filesManifest, sourcesManifest, htmlManifest))
    {
      var filesList, sourcesList, htmlList := filesManifest, sourcesManifest, htmlManifest;
      var files := seq(|filesList|, i requires 0 <= i < |filesList| => filesList[i].source);
      var sources := seq(|sourcesList|, i requires 0 <= i < |sourcesList| => sourcesList[i].source);
      var html := seq(|htmlList|, i requires 0 <= i < |htmlList| => htmlList[i].source);
      FirstMissingConcat(env.fs, files, sources);
      FirstMissingConcat(env.fs, files + sources, html);
      var missing := VerifyManifest(env.fs, files);
      if missing.None? {
        missing := VerifyManifest(env.fs, sources);
      }
      if missing.None? {
        missing := VerifyManifest(env.fs, html);
      }
      error := if missing.Some? then Some(MissingFile(missing.value)) else None;
    }

    /** `_processSourceHeaders`: each header with something to substitute is rewritten with
        the tags of its source and the year. */
    method ProcessSourceHeaders() returns (error: Option<string>)
      requires Consistent()
      modifies this
      ensures Consistent() && effects == old(effects) && filesUpdated == old(filesUpdated)
      ensures filesManifest == old(filesManifest) && htmlManifest == old(htmlManifest)
      ensures error.None? ==> ProcessHeaders(env.fs, env.tools, env.year, old(sourcesManifest)) == Ok(sourcesManifest)
      ensures error.Some? ==> ProcessHeaders(env.fs, env.tools, env.year, old(sourcesManifest)) == Err(error.value)
    {
      var processed := ProcessHeaderList(env.fs, env.tools, env.year, sourcesManifest);
      if processed.Err? {
        return Some(processed.error);
      }
      sourcesManifest := processed.value;
      return None;
    }

    /** `_buildStep_I_UpdateFiles`: every file of the files manifest copied, in order. */
    method UpdateFiles()
      requires Consistent()
      modifies this
      ensures Consistent()
      ensures effects == old(effects) + Copies(filesManifest)
      ensures filesUpdated == old(filesUpdated) + |filesManifest|
      ensures filesManifest == old(filesManifest) && sourcesManifest == old(sourcesManifest) && htmlManifest == old(htmlManifest)
    {
      var files := filesManifest;
      for i := 0 to |files|
        invariant filesManifest == old(filesManifest) && sourcesManifest == old(sourcesManifest) && htmlManifest == old(htmlManifest)
        invariant Consistent()
        invariant effects == old(effects) + Copies(files[..i])
        invariant filesUpdated == old(filesUpdated) + i
      {
        var copy := Copy(files[i].source, files[i].destination);
        assert Copies(files[..i + 1]) == Copies(files[..i]) + [copy];
        assert (effects + [copy])[..|effects|] == effects;
        effects := effects + [copy];
        filesUpdated := filesUpdated + 1;
      }
      assert files[..|files|] == files;
    }

    /** One step's log appended, and one more file counted when the step succeeded. */
    method Record(o: Outcome)
      requires Consistent() && Updates(o.effects) == if o.error.None? then 1 else 0
      modifies this
      ensures Consistent()
      ensures effects == old(effects) + o.effects
      ensures filesUpdated == old(filesUpdated) + if o.error.None? then 1 else 0
      ensures filesManifest == old(filesManifest) && sourcesManifest == old(sourcesManifest) && htmlManifest == old(htmlManifest)
    {
      UpdatesConcat(effects, o.effects);
      effects := effects + o.effects;
      if o.error.None? {
        filesUpdated := filesUpdated + 1;
      }
    }

    /** `_buildStep_II_CompileSources`: the sources compiled in order, stopping at the
        first failure; each success counts one updated file. */
    method CompileSources() returns (error: Option<string>)
      requires Consistent()
      modifies this
      ensures Consistent()
      ensures effects == old(effects) + CompileAll(env, variables, sourcesManifest).effects
      ensures error == CompileAll(env, variables, sourcesManifest).error
      ensures filesManifest == old(filesManifest) && sourcesManifest == old(sourcesManifest) && htmlManifest == old(htmlManifest)
    {
      var items := sourcesManifest;
      ghost var done: seq<Effect> := [];
      for i := 0 to |items|
        invariant filesManifest == old(filesManifest) && sourcesManifest == old(sourcesManifest) && htmlManifest == old(htmlManifest)
        invariant Consistent()
        invariant effects == old(effects) + done
        invariant Then(Outcome(done, None), CompileAll(env, variables, items[i..])) == CompileAll(env, variables, items)
      {
        var o := CompileSource(env.fs, env.tools, variables, items[i]);
        CompileAllStep(env, variables, items, i, done);
        CompileOneUpdates(env.fs, env.tools, variables, items[i]);
        AppendAssoc(old(effects), done, o.effects);
        Record(o);
        done := done + o.effects;
        if o.error.Some? {
          return o.error;
        }
      }
      ThenDone(done);
      return None;
    }

    /** `_buildStep_III_WriteHTMLFiles`: every page read, rewritten and written, in order. */
    method WriteHtmlFiles() returns (error: Option<string>)
      requires Consistent()
      modifies this
      ensures Consistent()
      ensures effects == old(effects) + HtmlAll(env, layout.sourceDir, sourcesManifest, htmlManifest).effects
      ensures error == HtmlAll(env, layout.sourceDir, sourcesManifest, htmlManifest).error
      ensures filesManifest == old(filesManifest) && sourcesManifest == old(sourcesManifest) && htmlManifest == old(htmlManifest)
    {
      var pages := htmlManifest;
      ghost var done: seq<Effect> := [];
      for i := 0 to |pages|
        invariant filesManifest == old(filesManifest) && sourcesManifest == old(sourcesManifest) && htmlManifest == old(htmlManifest)
        invariant Consistent()
        invariant effects == old(effects) + done
        invariant Then(Outcome(done, None), HtmlAll(env, layout.sourceDir, sourcesManifest, pages[i..])) ==
          HtmlAll(env, layout.sourceDir, sourcesManifest, pages)
      {
        ghost var o := HtmlOne(env.fs, env.tools, layout.sourceDir, sourcesManifest, pages[i]);
        HtmlAllStep(env, layout.sourceDir, sourcesManifest, pages, i, done);
        error := WritePage(pages[i]);
        if error.Some? {
          return;
        }
        AppendAssoc(old(effects), done, o.effects);
        done := done + o.effects;
      }
      ThenDone(done);
      return None;
    }

    /** One page: read the source, rewrite its lines, write the result. */
    method WritePage(page: Pair) returns (error: Option<string>)
      requires Consistent()
      modifies this
      ensures Consistent()
      ensures var o := HtmlOne(env.fs, env.tools, layout.sourceDir, sourcesManifest, page);
        effects == old(effects) + o.effects && error == o.error
      ensures filesManifest == old(filesManifest) && sourcesManifest == old(sourcesManifest) && htmlManifest == old(htmlManifest)
    {
      var content := ReadFile(env.fs, page.source);
      if content.Err? {
        assert effects + [] == effects;
        return Some(content.error);
      }
      var rewritten := RewriteLines(env.tools, layout.sourceDir, sourcesManifest, content.value);
      var write := Write(page.destination, rewritten);
      UpdatesConcat(effects, [write]);
      assert [write][..0] == [];
      effects := effects + [write];
      filesUpdated := filesUpdated + 1;
      return None;
    }

    /** The preparation of `build`: the manifests, the existence check and the headers. */
    method Prepare() returns (error: Option<string>)
      requires Consistent()
      modifies this
      ensures Consistent() && effects == old(effects) && filesUpdated == old(filesUpdated)
      ensures error.None? <==> Prepared(env, layout, config).Ok?
      ensures error.Some? ==> Prepared(env, layout, config) == Err(error.value)
      ensures error.None? ==> Prepared(env, layout, config).value == (filesManifest, sourcesManifest, htmlManifest)
    {
      error := BuildManifests();
      if error.Some? {
        return;
      }
      error := VerifySourceFiles();
      if error.Some? {
        return;
      }
      error := ProcessSourceHeaders();
    }

    /** The steps of `build`, each only when its manifest is not empty. */
    method RunSteps() returns (error: Option<string>)
      requires Consistent()
      modifies this
      ensures Consistent()
      ensures effects == old(effects) + Steps(env, layout, variables, filesManifest, sourcesManifest, htmlManifest).effects
      ensures error == Steps(env, layout, variables, filesManifest, sourcesManifest, htmlManifest).error
      ensures filesManifest == old(filesManifest) && sourcesManifest == old(sourcesManifest) && htmlManifest == old(htmlManifest)
    {
      StepsShape(env, layout, variables, filesManifest, sourcesManifest, htmlManifest);
      ghost var copied := Copies(filesManifest);
      ghost var compiled := CompileAll(env, variables, sourcesManifest);
      ghost var written := HtmlAll(env, layout.sourceDir, sourcesManifest, htmlManifest);
      if |filesManifest| > 0 {
        UpdateFiles();
      }
      assert effects == old(effects) + copied;
      error := None;
      if |sourcesManifest| > 0 {
        error := CompileSources();
      }
      assert effects == old(effects) + copied + compiled.effects && error == compiled.error;
      if error.Some? {
        AppendAssoc(old(effects), copied, compiled.effects);
        return;
      }
      if |htmlManifest| > 0 {
        error := WriteHtmlFiles();
      }
      assert effects == old(effects) + copied + compiled.effects + written.effects && error == written.error;
      AppendAssoc(old(effects), copied + compiled.effects, written.effects);
      AppendAssoc(old(effects), copied, compiled.effects);
    }

    /** `build`: prepare, then copy, compile and write. The log and the error are those of
        the build specification. */
    method Build() returns (error: Option<string>)
      requires Consistent()
      modifies this
      ensures Consistent()
      ensures effects == old(effects) + SingleBuild(env, layout, config, variables).effects
      ensures error == SingleBuild(env, layout, config, variables).error
    {
      error := Prepare();
      if error.Some? {
        PreparationFailureTouchesNothing(env, layout, config, variables);
        assert effects == old(effects) + [];
        return;
      }
      error := RunSteps();
    }
  }

  /** `new Builder(...)`: the source and destination directories must be strings for
      `path.normalize`, which otherwise throws. */
  method NewBuilder(env: Environment, config: BuildConfig, variables: seq<string>) returns (r: Result<Builder>)
    requires !config.isBatch && Valid(env.fs)
    ensures r.Ok? <==> LayoutOf(config.baseDir, config.sourceDir, config.destinationDir).Ok?
    ensures r.Err? ==> r.error == NotAPath
    ensures r.Ok? ==> fresh(r.value) && r.value.Consistent()
    ensures r.Ok? ==> r.value.layout == LayoutOf(config.baseDir, config.sourceDir, config.destinationDir).value
    ensures r.Ok? ==> r.value.config == config.Data() && r.value.variables == variables && r.value.env == env
    ensures r.Ok? ==> r.value.effects == [] && r.value.filesUpdated == 0
  {
    var layout := LayoutOf(config.baseDir, config.sourceDir, config.destinationDir);
    if layout.Err? {
      return Err(layout.error);
    }
    var builder := new Builder(env, layout.value, config.Data(), variables);
    return Ok(builder);
  }
}
